/** Header blocks: pseudo headers, the map of fields, and how a decoded list fills them. */
module H2HeaderBlock {
  import opened Wrappers
  import opened Octets
  import opened HpackHeader
  import E = HpackEncode
  import opened HpackLockstep

  datatype Pseudo = Pseudo(
    method_: Option<Bytes>,
    scheme: Option<Bytes>,
    authority: Option<Bytes>,
    path: Option<Bytes>,
    protocol: Option<Bytes>,
    status: Option<Bytes>)

  const NO_PSEUDO := Pseudo(None, None, None, None, None, None)

  datatype Value = Value(data: Bytes, sensitive: bool)

  /** All values of one field name, in order of arrival. */
  datatype Group = Group(name: Bytes, values: seq<Value>)

  /** A header map: groups in order of first arrival. */
  type FieldMap = seq<Group>

  datatype HeaderBlock = HeaderBlock(pseudo: Pseudo, fields: FieldMap, isOverSize: bool)

  const EMPTY_BLOCK := HeaderBlock(NO_PSEUDO, [], false)

  function Get(p: Pseudo, n: Name): (v: Option<Bytes>) {
    match n
    case Method => p.method_
    case Scheme => p.scheme
    case Authority => p.authority
    case Path => p.path
    case Protocol => p.protocol
    case Status => p.status
    case Field(_) => None
  }

  function Put(p: Pseudo, n: Name, v: Option<Bytes>): (r: Pseudo)
    requires !n.Field?
    ensures Get(r, n) == v && forall m :: m != n ==> Get(r, m) == Get(p, m)
  {
    match n
    case Method => p.(method_ := v)
    case Scheme => p.(scheme := v)
    case Authority => p.(authority := v)
    case Path => p.(path := v)
    case Protocol => p.(protocol := v)
    case Status => p.(status := v)
  }

  /** Adds a value behind the others of its name, or a new group at the end. */
  function Append(fields: FieldMap, name: Bytes, v: Value): (r: FieldMap) {
    if fields == [] then [Group(name, [v])]
    else if fields[0].name == name then [Group(name, fields[0].values + [v])] + fields[1..]
    else [fields[0]] + Append(fields[1..], name, v)
  }

  // ----- sizes -----

  function NameLen(n: Name): (k: nat) {
    match n
    case Field(text) => |text|
    case Authority => 10
    case Method => 7
    case Scheme => 7
    case Path => 5
    case Protocol => 9
    case Status => 7
  }

  function HeaderSize(h: Header): (k: nat) {
    NameLen(h.name) + |h.value| + 32
  }

  function SizeOf(hs: seq<Header>): (k: nat) {
    if hs == [] then 0 else HeaderSize(hs[0]) + SizeOf(hs[1..])
  }

  function PseudoSize(p: Pseudo, n: Name): (k: nat) {
    if Get(p, n).Some? then HeaderSize(Header(n, Get(p, n).value, false)) else 0
  }

  function ValuesSize(name: Bytes, values: seq<Value>): (k: nat) {
    if values == [] then 0 else |name| + |values[0].data| + 32 + ValuesSize(name, values[1..])
  }

  function FieldsSize(fields: FieldMap): (k: nat) {
    if fields == [] then 0 else ValuesSize(fields[0].name, fields[0].values) + FieldsSize(fields[1..])
  }

  /** The size a resumed load starts from.  It leaves out `:protocol`. */
  function ListSize(b: HeaderBlock): (k: nat) {
    PseudoSize(b.pseudo, Method) + PseudoSize(b.pseudo, Scheme) + PseudoSize(b.pseudo, Status)
    + PseudoSize(b.pseudo, Authority) + PseudoSize(b.pseudo, Path) + FieldsSize(b.fields)
  }

  // ----- filling a block -----

  predicate ConnectionLevel(name: Bytes) {
    || name == Ascii("connection") || name == Ascii("transfer-encoding") || name == Ascii("upgrade")
    || name == Ascii("keep-alive") || name == Ascii("proxy-connection")
  }

  /** Fields that HTTP/2 does not carry. */
  predicate Refused(name: Bytes, value: Bytes) {
    ConnectionLevel(name) || (name == Ascii("te") && value != Ascii("trailers"))
  }

  /** A block being filled: whether a regular field was seen, anything malformed, and the size so far. */
  datatype Loading = Loading(block: HeaderBlock, reg: bool, malformed: bool, size: nat)

  function Begin(b: HeaderBlock): (s: Loading) {
    Loading(b, b.fields != [], false, ListSize(b))
  }

  function LoadOne(max: nat, s: Loading, h: Header): (r: Loading) {
    var size := s.size + HeaderSize(h);
    match h.name
    case Field(name) =>
      if Refused(name, h.value) then s.(malformed := true)
      else if size < max then
        s.(reg := true, size := size,
           block := s.block.(fields := Append(s.block.fields, name, Value(h.value, h.sensitive))))
      else s.(reg := true, size := size, block := s.block.(isOverSize := true))
    case n =>
      if s.reg || Get(s.block.pseudo, n).Some? then s.(malformed := true)
      else if size < max then s.(size := size, block := s.block.(pseudo := Put(s.block.pseudo, n, Some(h.value))))
      else s.(size := size, block := s.block.(isOverSize := true))
  }

  function LoadAll(max: nat, s: Loading, hs: seq<Header>): (r: Loading)
    decreases |hs|
  {
    if hs == [] then s else LoadAll(max, LoadOne(max, s, hs[0]), hs[1..])
  }

  predicate Within(s: Loading) {
    !s.block.isOverSize
  }

  predicate Clean(s: Loading) {
    !s.malformed && Within(s)
  }

  lemma {:induction false} LoadAppend(max: nat, s: Loading, a: seq<Header>, b: seq<Header>)
    ensures LoadAll(max, s, a + b) == LoadAll(max, LoadAll(max, s, a), b)
    decreases |a|
  {
    hide LoadOne;
    if a == [] {
      assert a + b == b;
    } else {
      assert (a + b)[1..] == a[1..] + b;
      LoadAppend(max, LoadOne(max, s, a[0]), a[1..], b);
    }
  }

  lemma {:induction false} WithinThroughout(max: nat, s: Loading, hs: seq<Header>)
    requires Within(LoadAll(max, s, hs))
    ensures Within(s)
    decreases |hs|
  {
    hide Refused, Append, HeaderSize;
    if hs != [] {
      WithinThroughout(max, LoadOne(max, s, hs[0]), hs[1..]);
    }
  }

  lemma {:induction false} MalformedStays(max: nat, s: Loading, hs: seq<Header>)
    requires !LoadAll(max, s, hs).malformed
    ensures !s.malformed
    decreases |hs|
  {
    hide Refused, Append, HeaderSize;
    if hs != [] {
      MalformedStays(max, LoadOne(max, s, hs[0]), hs[1..]);
    }
  }

  /** A list without malformed headers is over size exactly when its whole size reaches the limit. */
  lemma {:induction false} OverSizeIff(max: nat, s: Loading, hs: seq<Header>)
    requires hs != [] && !LoadAll(max, s, hs).malformed
    ensures LoadAll(max, s, hs).block.isOverSize <==> s.block.isOverSize || s.size + SizeOf(hs) >= max
    decreases |hs|
  {
    hide Refused, Append, HeaderSize;
    var next := LoadOne(max, s, hs[0]);
    MalformedStays(max, next, hs[1..]);
    if |hs| == 1 {
      assert LoadAll(max, next, hs[1..]) == next && SizeOf(hs[1..]) == 0;
    } else {
      OverSizeIff(max, next, hs[1..]);
    }
  }

  // ----- loading in pieces -----

  lemma {:induction false} AppendSize(fields: FieldMap, name: Bytes, v: Value)
    ensures FieldsSize(Append(fields, name, v)) == FieldsSize(fields) + |name| + |v.data| + 32
  {
    if fields == [] {
      ValuesPush(name, [], v);
      assert [] + [v] == [v];
    } else if fields[0].name == name {
      ValuesPush(name, fields[0].values, v);
      assert Append(fields, name, v)[1..] == fields[1..];
    } else {
      AppendSize(fields[1..], name, v);
    }
  }

  lemma {:induction false} ValuesPush(name: Bytes, values: seq<Value>, v: Value)
    ensures ValuesSize(name, values + [v]) == ValuesSize(name, values) + |name| + |v.data| + 32
  {
    if values == [] {
      assert values + [v] == [v];
    } else {
      assert (values + [v])[1..] == values[1..] + [v];
      ValuesPush(name, values[1..], v);
    }
  }

  /** What holds while nothing is malformed or too large. */
  ghost predicate Tracked(s: Loading) {
    ListSize(s.block) <= s.size && (s.reg <==> s.block.fields != [])
  }

  lemma PutSize(p: Pseudo, fields: FieldMap, n: Name, v: Bytes)
    requires !n.Field? && Get(p, n).None?
    ensures ListSize(HeaderBlock(Put(p, n, Some(v)), fields, false))
            <= ListSize(HeaderBlock(p, fields, false)) + HeaderSize(Header(n, v, false))
  {
    hide FieldsSize;
  }

  lemma OneTracked(max: nat, s: Loading, h: Header)
    requires Tracked(s) && Within(LoadOne(max, s, h)) && Within(s)
    ensures Tracked(LoadOne(max, s, h))
  {
    var b := s.block;
    if h.name.Field? {
      hide Refused, FieldsSize, Append, PseudoSize;
      AppendSize(b.fields, h.name.text, Value(h.value, h.sensitive));
      AppendSome(b.fields, h.name.text, Value(h.value, h.sensitive));
    } else if Get(b.pseudo, h.name).None? {
      hide ListSize, Append, Put;
      PutSize(b.pseudo, b.fields, h.name, h.value);
    }
  }

  lemma AppendSome(fields: FieldMap, name: Bytes, v: Value)
    ensures Append(fields, name, v) != []
  {
  }

  lemma {:induction false} AllTracked(max: nat, s: Loading, hs: seq<Header>)
    requires Tracked(s) && Within(LoadAll(max, s, hs))
    ensures Tracked(LoadAll(max, s, hs))
    decreases |hs|
  {
    hide LoadOne, Tracked, Within;
    if hs != [] {
      WithinThroughout(max, LoadOne(max, s, hs[0]), hs[1..]);
      WithinThroughout(max, s, hs);
      OneTracked(max, s, hs[0]);
      AllTracked(max, LoadOne(max, s, hs[0]), hs[1..]);
    }
  }

  /** The same block, with no more counted against the limit. */
  ghost predicate NoLarger(s: Loading, t: Loading) {
    s.block == t.block && s.reg == t.reg && s.malformed == t.malformed && s.size <= t.size
  }

  /** Starting from a smaller count changes nothing for a list that fits. */
  lemma {:induction false} SmallerStart(max: nat, s: Loading, t: Loading, hs: seq<Header>)
    requires NoLarger(s, t) && Within(LoadAll(max, t, hs))
    ensures NoLarger(LoadAll(max, s, hs), LoadAll(max, t, hs))
    decreases |hs|
  {
    if hs != [] {
      hide Refused, Append, HeaderSize;
      WithinThroughout(max, LoadOne(max, t, hs[0]), hs[1..]);
      SmallerStart(max, LoadOne(max, s, hs[0]), LoadOne(max, t, hs[0]), hs[1..]);
    }
  }

  /** A malformed header leaves no trace but the mark. */
  lemma {:induction false} MalformedApart(max: nat, s: Loading, hs: seq<Header>)
    ensures LoadAll(max, s.(malformed := true), hs) == LoadAll(max, s, hs).(malformed := true)
    decreases |hs|
  {
    if hs != [] {
      hide Refused, Append, HeaderSize;
      MalformedApart(max, LoadOne(max, s, hs[0]), hs[1..]);
    }
  }

  /**
   A list within the limit loads to the same block when resumed anywhere, and is malformed exactly
   where a part is.
   */
  lemma LoadSplit(max: nat, b: HeaderBlock, x: seq<Header>, y: seq<Header>)
    requires Within(LoadAll(max, Begin(b), x + y))
    ensures var first, whole := LoadAll(max, Begin(b), x), LoadAll(max, Begin(b), x + y);
            var second := LoadAll(max, Begin(first.block), y);
            && Within(first) && second.block == whole.block
            && (whole.malformed <==> first.malformed || second.malformed)
  {
    hide LoadAll, LoadOne, ListSize;
    LoadAppend(max, Begin(b), x, y);
    var first := LoadAll(max, Begin(b), x);
    WithinThroughout(max, first, y);
    AllTracked(max, Begin(b), x);
    var again := Begin(first.block);
    if first.malformed {
      MalformedApart(max, again, y);
      SmallerStart(max, again.(malformed := true), first, y);
    } else {
      SmallerStart(max, again, first, y);
    }
  }

  // ----- writing a block and reading it back -----

  function PseudoItem(p: Pseudo, n: Name): (hs: seq<Header>) {
    if Get(p, n).Some? then [Header(n, Get(p, n).value, false)] else []
  }

  function PseudoHeaders(p: Pseudo): (hs: seq<Header>) {
    PseudoItem(p, Method) + (PseudoItem(p, Scheme) + (PseudoItem(p, Authority)
    + (PseudoItem(p, Path) + (PseudoItem(p, Protocol) + PseudoItem(p, Status)))))
  }

  function Named(hs: seq<Header>): (items: seq<E.Item>)
    ensures |items| == |hs| && forall i :: 0 <= i < |hs| ==> items[i] == E.Named(hs[i])
  {
    seq(|hs|, i requires 0 <= i < |hs| => E.Named(hs[i]))
  }

  function Repeats(values: seq<Value>): (items: seq<E.Item>)
    ensures |items| == |values|
    ensures forall i :: 0 <= i < |values| ==> items[i] == E.Nameless(values[i].data, values[i].sensitive)
  {
    seq(|values|, i requires 0 <= i < |values| => E.Nameless(values[i].data, values[i].sensitive))
  }

  /** The name goes with the first value of a group; the others follow nameless. */
  function GroupItems(g: Group): (items: seq<E.Item>) {
    if g.values == [] then []
    else [E.Named(Header(Field(g.name), g.values[0].data, g.values[0].sensitive))] + Repeats(g.values[1..])
  }

  function FieldItems(fields: FieldMap): (items: seq<E.Item>) {
    if fields == [] then [] else GroupItems(fields[0]) + FieldItems(fields[1..])
  }

  /** What the encoder is given: pseudo headers first. */
  function Items(b: HeaderBlock): (items: seq<E.Item>) {
    Named(PseudoHeaders(b.pseudo)) + FieldItems(b.fields)
  }

  function ValueHeaders(name: Bytes, values: seq<Value>): (hs: seq<Header>)
    ensures |hs| == |values| && forall i :: 0 <= i < |hs| ==> hs[i] == Header(Field(name), values[i].data, false)
  {
    seq(|values|, i requires 0 <= i < |values| => Header(Field(name), values[i].data, false))
  }

  function FieldHeaders(fields: FieldMap): (hs: seq<Header>) {
    if fields == [] then [] else ValueHeaders(fields[0].name, fields[0].values) + FieldHeaders(fields[1..])
  }

  /** The plain list of headers a block stands for. */
  function HeaderList(b: HeaderBlock): (hs: seq<Header>) {
    PseudoHeaders(b.pseudo) + FieldHeaders(b.fields)
  }

  /** The fields are a map: no name twice, and no name without a value. */
  ghost predicate IsMap(fields: FieldMap) {
    && (forall i, j :: 0 <= i < j < |fields| ==> fields[i].name != fields[j].name)
    && (forall i :: 0 <= i < |fields| ==> fields[i].values != [])
  }

  lemma {:induction false} ReportedAppend(a: seq<E.Item>, b: seq<E.Item>, name: Option<Name>)
    requires E.WellFormed(a, name.Some?) && (b != [] ==> b[0].Named?)
    ensures E.WellFormed(a + b, name.Some?) && Reported(a + b, name) == Reported(a, name) + Reported(b, None)
    decreases |a|
  {
    if a == [] {
      assert a + b == b;
      ReportedNamed(b, name);
    } else {
      assert (a + b)[1..] == a[1..] + b && (a + b)[0] == a[0];
      ReportedAppend(a[1..], b, if a[0].Named? then Some(a[0].header.name) else name);
    }
  }

  lemma ReportedNamed(b: seq<E.Item>, name: Option<Name>)
    requires b != [] ==> b[0].Named?
    ensures Reported(b, name) == Reported(b, None)
  {
  }

  lemma {:induction false} ReportedRepeats(name: Bytes, values: seq<Value>)
    ensures Reported(Repeats(values), Some(Field(name))) == ValueHeaders(name, values)
  {
    if values != [] {
      assert Repeats(values)[1..] == Repeats(values[1..]);
      ReportedRepeats(name, values[1..]);
      assert ValueHeaders(name, values)
             == [Header(Field(name), values[0].data, false)] + ValueHeaders(name, values[1..]);
    }
  }

  lemma ReportedGroup(g: Group)
    requires g.values != []
    ensures GroupItems(g) != [] && GroupItems(g)[0].Named?
    ensures Reported(GroupItems(g), None) == ValueHeaders(g.name, g.values)
  {
    ReportedRepeats(g.name, g.values[1..]);
    assert GroupItems(g)[1..] == Repeats(g.values[1..]);
    assert ValueHeaders(g.name, g.values)
           == [Header(Field(g.name), g.values[0].data, false)] + ValueHeaders(g.name, g.values[1..]);
  }

  lemma {:induction false} ReportedFields(fields: FieldMap)
    requires IsMap(fields)
    ensures FieldItems(fields) != [] ==> FieldItems(fields)[0].Named?
    ensures Reported(FieldItems(fields), None) == FieldHeaders(fields)
  {
    hide GroupItems, Reported, ValueHeaders;
    if fields == [] {
      NothingReported();
    } else {
      ReportedFields(fields[1..]);
      ReportedGroup(fields[0]);
      ReportedAppend(GroupItems(fields[0]), FieldItems(fields[1..]), None);
    }
  }

  lemma NothingReported()
    ensures Reported([], None) == []
  {
  }

  ghost predicate Unmarked(hs: seq<Header>) {
    forall i :: 0 <= i < |hs| ==> !hs[i].sensitive
  }

  lemma {:induction false} ReportedPseudo(hs: seq<Header>, name: Option<Name>)
    requires Unmarked(hs)
    ensures E.WellFormed(Named(hs), name.Some?) && Reported(Named(hs), name) == hs
    decreases |hs|
  {
    if hs != [] {
      assert Named(hs)[1..] == Named(hs[1..]);
      ReportedPseudo(hs[1..], Some(hs[0].name));
    }
  }

  lemma UnmarkedAppend(a: seq<Header>, b: seq<Header>)
    requires Unmarked(a) && Unmarked(b)
    ensures Unmarked(a + b)
  {
  }

  lemma PseudoUnmarked(p: Pseudo)
    ensures Unmarked(PseudoHeaders(p))
  {
    assert forall n :: Unmarked(PseudoItem(p, n));
    hide Unmarked, PseudoItem;
    var r5 := PseudoItem(p, Protocol) + PseudoItem(p, Status);
    UnmarkedAppend(PseudoItem(p, Protocol), PseudoItem(p, Status));
    UnmarkedAppend(PseudoItem(p, Path), r5);
    var r4 := PseudoItem(p, Path) + r5;
    UnmarkedAppend(PseudoItem(p, Authority), r4);
    var r3 := PseudoItem(p, Authority) + r4;
    UnmarkedAppend(PseudoItem(p, Scheme), r3);
    UnmarkedAppend(PseudoItem(p, Method), PseudoItem(p, Scheme) + r3);
  }

  /** The items of a block stand for its headers. */
  lemma ReportedItems(b: HeaderBlock)
    requires IsMap(b.fields)
    ensures E.WellFormed(Items(b), false) && Reported(Items(b), None) == HeaderList(b)
  {
    hide Reported, PseudoHeaders, FieldItems, FieldHeaders, Named, E.WellFormed;
    ReportedFields(b.fields);
    PseudoUnmarked(b.pseudo);
    ReportedPseudo(PseudoHeaders(b.pseudo), None);
    ReportedAppend(Named(PseudoHeaders(b.pseudo)), FieldItems(b.fields), None);
  }

  // ----- rebuilding -----

  function PlainValues(values: seq<Value>): (r: seq<Value>)
    ensures |r| == |values| && forall i :: 0 <= i < |r| ==> r[i] == Value(values[i].data, false)
  {
    seq(|values|, i requires 0 <= i < |values| => Value(values[i].data, false))
  }

  function PlainFields(fields: FieldMap): (r: FieldMap)
    ensures |r| == |fields| && forall i :: 0 <= i < |r| ==> r[i] == Group(fields[i].name, PlainValues(fields[i].values))
  {
    seq(|fields|, i requires 0 <= i < |fields| => Group(fields[i].name, PlainValues(fields[i].values)))
  }

  /** The block without its never-index marks, which are not carried over. */
  function PlainBlock(b: HeaderBlock): (r: HeaderBlock) {
    b.(fields := PlainFields(b.fields))
  }

  ghost predicate HasName(fields: FieldMap, name: Bytes) {
    exists i :: 0 <= i < |fields| && fields[i].name == name
  }

  lemma {:induction false} AppendNew(fields: FieldMap, name: Bytes, v: Value)
    requires !HasName(fields, name)
    ensures Append(fields, name, v) == fields + [Group(name, [v])]
  {
    if fields != [] {
      assert fields[0].name != name;
      assert forall i :: 0 <= i < |fields[1..]| ==> fields[1..][i] == fields[i + 1];
      AppendNew(fields[1..], name, v);
    }
  }

  lemma {:induction false} AppendLast(fields: FieldMap, name: Bytes, values: seq<Value>, v: Value)
    requires !HasName(fields, name)
    ensures Append(fields + [Group(name, values)], name, v) == fields + [Group(name, values + [v])]
  {
    var all := fields + [Group(name, values)];
    if fields != [] {
      assert fields[0].name != name;
      assert all[1..] == fields[1..] + [Group(name, values)];
      assert forall i :: 0 <= i < |fields[1..]| ==> fields[1..][i] == fields[i + 1];
      AppendLast(fields[1..], name, values, v);
    }
  }

  /** Headers that may be sent at all. */
  ghost predicate Allowed(hs: seq<Header>) {
    forall i :: 0 <= i < |hs| && hs[i].name.Field? ==> !Refused(hs[i].name.text, hs[i].value)
  }

  lemma LoadValue(max: nat, s: Loading, done: FieldMap, name: Bytes, before: seq<Value>, data: Bytes)
    requires s.block.fields == done + [Group(name, before)] && !HasName(done, name) && s.reg
    requires !Refused(name, data) && s.size + HeaderSize(Header(Field(name), data, false)) < max
    ensures LoadOne(max, s, Header(Field(name), data, false))
         == s.(block := s.block.(fields := done + [Group(name, before + [Value(data, false)])]),
               size := s.size + HeaderSize(Header(Field(name), data, false)))
  {
    hide Refused, Append, HasName;
    AppendLast(done, name, before, Value(data, false));
  }

  /** The rest of a group, behind its first values. */
  lemma {:induction false} LoadValues(max: nat, s: Loading, done: FieldMap, name: Bytes, before: seq<Value>,
                                      values: seq<Value>)
    requires s.block.fields == done + [Group(name, before)] && !HasName(done, name) && s.reg
    requires Allowed(ValueHeaders(name, values)) && s.size + SizeOf(ValueHeaders(name, values)) < max
    ensures LoadAll(max, s, ValueHeaders(name, values))
         == s.(block := s.block.(fields := done + [Group(name, before + PlainValues(values))]),
               size := s.size + SizeOf(ValueHeaders(name, values)))
    decreases |values|
  {
    hide Refused, LoadOne, HasName, HeaderSize;
    var hs := ValueHeaders(name, values);
    if values == [] {
      assert before + PlainValues(values) == before;
    } else {
      var v := Value(values[0].data, false);
      assert hs[1..] == ValueHeaders(name, values[1..]);
      LoadValue(max, s, done, name, before, values[0].data);
      LoadValues(max, LoadOne(max, s, hs[0]), done, name, before + [v], values[1..]);
      assert before + [v] + PlainValues(values[1..]) == before + PlainValues(values);
    }
  }

  lemma LoadGroup(max: nat, s: Loading, g: Group)
    requires g.values != [] && !HasName(s.block.fields, g.name)
    requires Allowed(ValueHeaders(g.name, g.values)) && s.size + SizeOf(ValueHeaders(g.name, g.values)) < max
    ensures LoadAll(max, s, ValueHeaders(g.name, g.values))
         == s.(block := s.block.(fields := s.block.fields + [Group(g.name, PlainValues(g.values))]), reg := true,
               size := s.size + SizeOf(ValueHeaders(g.name, g.values)))
  {
    hide Refused, Append, HasName;
    var hs, v := ValueHeaders(g.name, g.values), Value(g.values[0].data, false);
    assert hs[1..] == ValueHeaders(g.name, g.values[1..]);
    AppendNew(s.block.fields, g.name, v);
    LoadValues(max, LoadOne(max, s, hs[0]), s.block.fields, g.name, [v], g.values[1..]);
    assert [v] + PlainValues(g.values[1..]) == PlainValues(g.values);
  }

  lemma {:induction false} SizeAppend(a: seq<Header>, b: seq<Header>)
    ensures SizeOf(a + b) == SizeOf(a) + SizeOf(b)
  {
    if a == [] {
      assert a + b == b;
    } else {
      assert (a + b)[1..] == a[1..] + b;
      SizeAppend(a[1..], b);
    }
  }

  /** Loading the headers of some groups adds the groups, in order. */
  lemma {:induction false} LoadFields(max: nat, s: Loading, fields: FieldMap)
    requires IsMap(fields) && Allowed(FieldHeaders(fields)) && s.size + SizeOf(FieldHeaders(fields)) < max
    requires forall i :: 0 <= i < |fields| ==> !HasName(s.block.fields, fields[i].name)
    ensures LoadAll(max, s, FieldHeaders(fields))
         == s.(block := s.block.(fields := s.block.fields + PlainFields(fields)), reg := s.reg || fields != [],
               size := s.size + SizeOf(FieldHeaders(fields)))
    decreases |fields|
  {
    if fields == [] {
      assert s.block.fields + PlainFields(fields) == s.block.fields;
    } else {
      hide Refused, Append, LoadOne, LoadAll, HeaderSize, PlainFields, PlainValues, ValueHeaders, HasName, Allowed,
           SizeOf;
      var g := fields[0];
      var first, rest := ValueHeaders(g.name, g.values), FieldHeaders(fields[1..]);
      SizeAppend(first, rest);
      LoadAppend(max, s, first, rest);
      AllowedParts(first, rest);
      LoadGroup(max, s, g);
      var next := LoadAll(max, s, first);
      NamesLeft(s.block.fields, fields);
      LoadFields(max, next, fields[1..]);
      PlainFirst(s.block.fields, fields);
    }
  }

  lemma PlainFirst(done: FieldMap, fields: FieldMap)
    requires fields != []
    ensures done + [Group(fields[0].name, PlainValues(fields[0].values))] + PlainFields(fields[1..])
            == done + PlainFields(fields)
  {
  }

  lemma AllowedParts(a: seq<Header>, b: seq<Header>)
    requires Allowed(a + b)
    ensures Allowed(a) && Allowed(b)
  {
    hide Refused;
    assert forall i :: 0 <= i < |a| ==> (a + b)[i] == a[i];
    assert forall i :: 0 <= i < |b| ==> (a + b)[|a| + i] == b[i];
  }

  lemma NamesLeft(done: FieldMap, fields: FieldMap)
    requires IsMap(fields) && fields != [] && forall i :: 0 <= i < |fields| ==> !HasName(done, fields[i].name)
    ensures IsMap(fields[1..])
    ensures var next := done + [Group(fields[0].name, PlainValues(fields[0].values))];
            forall i :: 0 <= i < |fields[1..]| ==> !HasName(next, fields[1..][i].name)
  {
  }

  /** The state after one pseudo header, if there is one. */
  function WithPseudo(s: Loading, p: Pseudo, n: Name): (r: Loading)
    requires !n.Field?
  {
    s.(block := s.block.(pseudo := Put(s.block.pseudo, n, Get(p, n))), size := s.size + SizeOf(PseudoItem(p, n)))
  }

  lemma LoadPseudoItem(max: nat, s: Loading, p: Pseudo, n: Name, rest: seq<Header>)
    requires !n.Field? && !s.reg && Get(s.block.pseudo, n).None? && s.size + SizeOf(PseudoItem(p, n) + rest) < max
    ensures var s' := WithPseudo(s, p, n);
            && LoadAll(max, s, PseudoItem(p, n) + rest) == LoadAll(max, s', rest)
            && s'.size + SizeOf(rest) == s.size + SizeOf(PseudoItem(p, n) + rest)
  {
    SizeAppend(PseudoItem(p, n), rest);
    LoadAppend(max, s, PseudoItem(p, n), rest);
    if Get(p, n).Some? {
      var h := Header(n, Get(p, n).value, false);
      assert [h][1..] == [];
      assert SizeOf([h]) == HeaderSize(h);
      assert LoadAll(max, s, [h]) == LoadOne(max, s, h);
    } else {
      assert Put(s.block.pseudo, n, None) == s.block.pseudo;
    }
  }

  lemma LoadPseudo(max: nat, p: Pseudo, rest: seq<Header>)
    requires SizeOf(PseudoHeaders(p) + rest) < max
    ensures LoadAll(max, Begin(EMPTY_BLOCK), PseudoHeaders(p) + rest)
         == LoadAll(max, Loading(HeaderBlock(p, [], false), false, false, SizeOf(PseudoHeaders(p))), rest)
  {
    hide LoadAll, SizeOf, PseudoItem;
    var r6 := PseudoItem(p, Status) + rest;
    var r5 := PseudoItem(p, Protocol) + r6;
    var r4 := PseudoItem(p, Path) + r5;
    var r3 := PseudoItem(p, Authority) + r4;
    var r2 := PseudoItem(p, Scheme) + r3;
    assert PseudoHeaders(p) + rest == PseudoItem(p, Method) + r2;
    var s0 := Begin(EMPTY_BLOCK);
    LoadPseudoItem(max, s0, p, Method, r2);
    var s1 := WithPseudo(s0, p, Method);
    LoadPseudoItem(max, s1, p, Scheme, r3);
    var s2 := WithPseudo(s1, p, Scheme);
    LoadPseudoItem(max, s2, p, Authority, r4);
    var s3 := WithPseudo(s2, p, Authority);
    LoadPseudoItem(max, s3, p, Path, r5);
    var s4 := WithPseudo(s3, p, Path);
    LoadPseudoItem(max, s4, p, Protocol, r6);
    LoadPseudoItem(max, WithPseudo(s4, p, Protocol), p, Status, rest);
    SizeAppend(PseudoHeaders(p), rest);
  }

  /** A block that may be sent and that the reader has room for. */
  ghost predicate Sendable(b: HeaderBlock, max: nat) {
    IsMap(b.fields) && !b.isOverSize && Allowed(HeaderList(b)) && SizeOf(HeaderList(b)) < max
  }

  /** Loading the headers of a block into an empty one gives the block back. */
  lemma LoadRebuilds(max: nat, b: HeaderBlock)
    requires Sendable(b, max)
    ensures LoadAll(max, Begin(EMPTY_BLOCK), HeaderList(b))
            == Loading(PlainBlock(b), b.fields != [], false, SizeOf(HeaderList(b)))
  {
    hide LoadAll, SizeOf, PseudoHeaders, FieldHeaders, Allowed;
    var s := Loading(HeaderBlock(b.pseudo, [], false), false, false, SizeOf(PseudoHeaders(b.pseudo)));
    LoadPseudo(max, b.pseudo, FieldHeaders(b.fields));
    SizeAppend(PseudoHeaders(b.pseudo), FieldHeaders(b.fields));
    AllowedParts(PseudoHeaders(b.pseudo), FieldHeaders(b.fields));
    LoadFields(max, s, b.fields);
    assert [] + PlainFields(b.fields) == PlainFields(b.fields);
  }
}

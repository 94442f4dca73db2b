/** The database of TLS secrets and its text form, the key log. */
module KeyDb {
  import opened Wrappers
  import opened Octets

  type ClientRandom = Bytes
  type Secret = Bytes

  datatype SecretType =
    | Tls12ClientMasterSecret
    | ClientEarlyTrafficSecret
    | ClientHandshakeTrafficSecret
    | ServerHandshakeTrafficSecret
    | ServerTrafficSecret0
    | ClientTrafficSecret0
    | ExporterSecret

  type ConnectionKeys = seq<(SecretType, Secret)>
  type Keys = map<ClientRandom, ConnectionKeys>

  datatype Entry = Entry(typ: SecretType, random: ClientRandom, secret: Secret)

  const SPACE: byte := 32
  const NEWLINE: byte := 10
  const HASH: byte := 35

  // ----- look-up -----

  function First(ks: ConnectionKeys, typ: SecretType): (s: Option<Secret>) {
    if ks == [] then None else if ks[0].0 == typ then Some(ks[0].1) else First(ks[1..], typ)
  }

  function Lookup(keys: Keys, random: ClientRandom, typ: SecretType): (s: Option<Secret>) {
    if random in keys then First(keys[random], typ) else None
  }

  function Of(keys: Keys, random: ClientRandom): (ks: ConnectionKeys) {
    if random in keys then keys[random] else []
  }

  function WithSecret(keys: Keys, e: Entry): (keys': Keys) {
    keys[e.random := Of(keys, e.random) + [(e.typ, e.secret)]]
  }

  /** Every answer `keys` gives, `more` gives too. */
  ghost predicate Extends(more: Keys, keys: Keys) {
    forall r, t :: Lookup(keys, r, t).Some? ==> Lookup(more, r, t) == Lookup(keys, r, t)
  }

  lemma {:induction false} FirstStays(ks: ConnectionKeys, x: (SecretType, Secret), typ: SecretType)
    ensures First(ks + [x], typ)
            == if First(ks, typ).Some? then First(ks, typ) else if x.0 == typ then Some(x.1) else None
  {
    if ks == [] {
      assert ks + [x] == [x];
    } else {
      assert (ks + [x])[1..] == ks[1..] + [x];
      FirstStays(ks[1..], x, typ);
    }
  }

  /** The first secret of a kind wins: a later one never changes an answer already given. */
  lemma SecretsStay(keys: Keys, e: Entry)
    ensures Extends(WithSecret(keys, e), keys)
  {
    forall r, t | Lookup(keys, r, t).Some?
      ensures Lookup(WithSecret(keys, e), r, t) == Lookup(keys, r, t)
    {
      FirstStays(Of(keys, r), (e.typ, e.secret), t);
    }
  }

  // ----- labels -----

  function LabelText(t: SecretType): (s: string) {
    match t
    case Tls12ClientMasterSecret => "CLIENT_RANDOM"
    case ClientEarlyTrafficSecret => "CLIENT_EARLY_TRAFFIC_SECRET"
    case ClientHandshakeTrafficSecret => "CLIENT_HANDSHAKE_TRAFFIC_SECRET"
    case ServerHandshakeTrafficSecret => "SERVER_HANDSHAKE_TRAFFIC_SECRET"
    case ClientTrafficSecret0 => "CLIENT_TRAFFIC_SECRET_0"
    case ServerTrafficSecret0 => "SERVER_TRAFFIC_SECRET_0"
    case ExporterSecret => "EXPORTER_SECRET"
  }

  function Label(t: SecretType): (b: Bytes) {
    Ascii(LabelText(t))
  }

  function ParseLabel(b: Bytes): (t: Option<SecretType>) {
    if b == Ascii("CLIENT_RANDOM") then Some(Tls12ClientMasterSecret)
    else if b == Ascii("CLIENT_EARLY_TRAFFIC_SECRET") then Some(ClientEarlyTrafficSecret)
    else if b == Ascii("CLIENT_HANDSHAKE_TRAFFIC_SECRET") then Some(ClientHandshakeTrafficSecret)
    else if b == Ascii("SERVER_HANDSHAKE_TRAFFIC_SECRET") then Some(ServerHandshakeTrafficSecret)
    else if b == Ascii("CLIENT_TRAFFIC_SECRET_0") then Some(ClientTrafficSecret0)
    else if b == Ascii("SERVER_TRAFFIC_SECRET_0") then Some(ServerTrafficSecret0)
    else if b == Ascii("EXPORTER_SECRET") then Some(ExporterSecret)
    else None
  }

  /** Length and first letter tell the labels apart. */
  lemma LabelRoundTrip(t: SecretType)
    ensures ParseLabel(Label(t)) == Some(t)
  {
    hide Ascii;
    LabelShape("CLIENT_RANDOM");
    LabelShape("CLIENT_EARLY_TRAFFIC_SECRET");
    LabelShape("CLIENT_HANDSHAKE_TRAFFIC_SECRET");
    LabelShape("SERVER_HANDSHAKE_TRAFFIC_SECRET");
    LabelShape("CLIENT_TRAFFIC_SECRET_0");
    LabelShape("SERVER_TRAFFIC_SECRET_0");
    LabelShape("EXPORTER_SECRET");
  }

  lemma LabelShape(s: string)
    ensures |Ascii(s)| == |s| && (s != [] ==> Ascii(s)[0] == s[0] as int % 256)
  {
  }

  /** Only capitals, digits and underscores. */
  predicate Wordy(s: string) {
    forall i :: 0 <= i < |s| ==> 'A' <= s[i] <= 'Z' || s[i] == '_' || '0' <= s[i] <= '9'
  }

  lemma HandshakeLabels()
    ensures Wordy("CLIENT_HANDSHAKE_TRAFFIC_SECRET") && Wordy("SERVER_HANDSHAKE_TRAFFIC_SECRET")
  {
  }

  lemma TrafficLabels()
    ensures Wordy("CLIENT_TRAFFIC_SECRET_0") && Wordy("SERVER_TRAFFIC_SECRET_0")
  {
  }

  lemma OtherLabels()
    ensures Wordy("CLIENT_RANDOM") && Wordy("CLIENT_EARLY_TRAFFIC_SECRET") && Wordy("EXPORTER_SECRET")
  {
  }

  lemma LabelWordy(t: SecretType)
    ensures Wordy(LabelText(t)) && LabelText(t) != ""
  {
    hide Wordy;
    HandshakeLabels();
    TrafficLabels();
    OtherLabels();
  }

  lemma LabelClean(t: SecretType)
    ensures Clean(Label(t)) && HASH !in Label(t) && Label(t) != []
  {
    LabelWordy(t);
    hide LabelText;
  }

  // ----- hexadecimal -----

  function HexDigit(n: int): (b: byte)
    requires 0 <= n < 16
  {
    if n < 10 then 48 + n else 87 + n
  }

  /** Lower-case, two digits per octet. */
  function Hex(b: Bytes): (h: Bytes) {
    if b == [] then [] else [HexDigit(b[0] / 16), HexDigit(b[0] % 16)] + Hex(b[1..])
  }

  /** Digits of either case. */
  function DigitValue(b: byte): (n: Option<byte>)
    ensures n.Some? ==> n.value < 16
  {
    if 48 <= b <= 57 then Some(b - 48)
    else if 65 <= b <= 70 then Some(b - 55)
    else if 97 <= b <= 102 then Some(b - 87)
    else None
  }

  /** Fails on an odd number of digits and on anything that is not a digit. */
  function Unhex(h: Bytes): (b: Option<Bytes>) {
    if h == [] then Some([])
    else if |h| == 1 then None
    else
      var hi, lo, rest := DigitValue(h[0]), DigitValue(h[1]), Unhex(h[2..]);
      if hi.None? || lo.None? || rest.None? then None
      else Some([16 * hi.value + lo.value] + rest.value)
  }

  lemma {:induction false} HexRoundTrip(b: Bytes)
    ensures Unhex(Hex(b)) == Some(b)
  {
    if b != [] {
      HexRoundTrip(b[1..]);
      assert Hex(b)[2..] == Hex(b[1..]);
      assert b == [b[0]] + b[1..] && b[0] == 16 * (b[0] / 16) + b[0] % 16;
    }
  }

  lemma {:induction false} HexClean(b: Bytes)
    ensures Clean(Hex(b))
  {
    if b != [] {
      HexClean(b[1..]);
    }
  }

  // ----- lines and words -----

  predicate Clean(b: Bytes) {
    SPACE !in b && NEWLINE !in b
  }

  /** The pieces between separators: always one more than there are separators. */
  function Split(b: Bytes, sep: byte): (parts: seq<Bytes>)
    ensures parts != []
  {
    if b == [] then [[]]
    else
      var rest := Split(b[1..], sep);
      if b[0] == sep then [[]] + rest else [[b[0]] + rest[0]] + rest[1..]
  }

  lemma {:induction false} SplitFirst(word: Bytes, rest: Bytes, sep: byte)
    requires sep !in word
    ensures Split(word + [sep] + rest, sep) == [word] + Split(rest, sep)
  {
    var b := word + [sep] + rest;
    if word == [] {
      assert b[1..] == rest;
    } else {
      assert b[1..] == word[1..] + [sep] + rest;
      SplitFirst(word[1..], rest, sep);
      assert word == [word[0]] + word[1..];
    }
  }

  lemma {:induction false} SplitLast(word: Bytes, sep: byte)
    requires sep !in word
    ensures Split(word, sep) == [word]
  {
    if word != [] {
      SplitLast(word[1..], sep);
      assert word == [word[0]] + word[1..];
    }
  }

  function ParseLine(line: Bytes): (e: Option<Entry>) {
    if line != [] && line[0] == HASH then None
    else
      var words := Split(line, SPACE);
      if |words| != 3 then None
      else
        var typ, random, secret := ParseLabel(words[0]), Unhex(words[1]), Unhex(words[2]);
        if typ.None? || random.None? || secret.None? then None
        else Some(Entry(typ.value, random.value, secret.value))
  }

  function Line(e: Entry): (b: Bytes) {
    Label(e.typ) + [SPACE] + (Hex(e.random) + [SPACE] + Hex(e.secret))
  }

  lemma LineWords(e: Entry)
    ensures Split(Line(e), SPACE) == [Label(e.typ), Hex(e.random), Hex(e.secret)]
    ensures NEWLINE !in Line(e) && Line(e) != [] && Line(e)[0] != HASH
  {
    hide Label, Hex, Split;
    LabelClean(e.typ);
    HexClean(e.random);
    HexClean(e.secret);
    SplitFirst(Label(e.typ), Hex(e.random) + [SPACE] + Hex(e.secret), SPACE);
    SplitFirst(Hex(e.random), Hex(e.secret), SPACE);
    SplitLast(Hex(e.secret), SPACE);
    assert Line(e)[0] == Label(e.typ)[0];
  }

  lemma LineRoundTrip(e: Entry)
    ensures ParseLine(Line(e)) == Some(e)
  {
    hide Label, ParseLabel, Hex, Unhex, Split, Line;
    LineWords(e);
    LabelRoundTrip(e.typ);
    HexRoundTrip(e.random);
    HexRoundTrip(e.secret);
  }

  /** The labels of the key log, each with the secret it stands for. */
  const LABELS: seq<(string, SecretType)> := [
    ("CLIENT_RANDOM", Tls12ClientMasterSecret),
    ("CLIENT_EARLY_TRAFFIC_SECRET", ClientEarlyTrafficSecret),
    ("CLIENT_HANDSHAKE_TRAFFIC_SECRET", ClientHandshakeTrafficSecret),
    ("SERVER_HANDSHAKE_TRAFFIC_SECRET", ServerHandshakeTrafficSecret),
    ("CLIENT_TRAFFIC_SECRET_0", ClientTrafficSecret0),
    ("SERVER_TRAFFIC_SECRET_0", ServerTrafficSecret0),
    ("EXPORTER_SECRET", ExporterSecret)]

  lemma LabelsAre(i: nat)
    requires i < |LABELS|
    ensures Label(LABELS[i].1) == Ascii(LABELS[i].0) && ParseLabel(Ascii(LABELS[i].0)) == Some(LABELS[i].1)
  {
    hide Ascii, ParseLabel;
    LabelRoundTrip(LABELS[i].1);
    assert i == 0 || i == 1 || i == 2 || i == 3 || i == 4 || i == 5 || i == 6;
  }

  lemma OnlyLabels(b: Bytes) returns (i: nat)
    requires ParseLabel(b).Some?
    ensures i < |LABELS| && b == Ascii(LABELS[i].0) && ParseLabel(b) == Some(LABELS[i].1)
  {
    hide Ascii;
    var l := LABELS;
    i := if b == Ascii("CLIENT_RANDOM") then 0
         else if b == Ascii("CLIENT_EARLY_TRAFFIC_SECRET") then 1
         else if b == Ascii("CLIENT_HANDSHAKE_TRAFFIC_SECRET") then 2
         else if b == Ascii("SERVER_HANDSHAKE_TRAFFIC_SECRET") then 3
         else if b == Ascii("CLIENT_TRAFFIC_SECRET_0") then 4
         else if b == Ascii("SERVER_TRAFFIC_SECRET_0") then 5 else 6;
  }

  /** Two hexadecimal digits, of either case, for each octet. */
  predicate IsHex(h: Bytes) {
    |h| % 2 == 0 && forall i :: 0 <= i < |h| ==> DigitValue(h[i]).Some?
  }

  lemma {:induction false} UnhexIff(h: Bytes)
    ensures Unhex(h).Some? <==> IsHex(h)
  {
    if |h| >= 2 {
      UnhexIff(h[2..]);
      assert forall i :: 2 <= i < |h| ==> h[i] == h[2..][i - 2];
    }
  }

  /** With its small letters made capitals. */
  function Upper(h: Bytes): (u: Bytes) {
    seq(|h|, i requires 0 <= i < |h| => if 97 <= h[i] <= 102 then h[i] - 32 else h[i])
  }

  /** Hexadecimal is written in lower case, and read in either. */
  lemma {:induction false} EitherCase(b: Bytes)
    ensures Unhex(Upper(Hex(b))) == Some(b)
    ensures forall i :: 0 <= i < |Hex(b)| ==> 48 <= Hex(b)[i] <= 57 || 97 <= Hex(b)[i] <= 102
  {
    if b != [] {
      EitherCase(b[1..]);
      assert Hex(b)[2..] == Hex(b[1..]);
      assert Upper(Hex(b))[2..] == Upper(Hex(b[1..]));
      assert b == [b[0]] + b[1..] && b[0] == 16 * (b[0] / 16) + b[0] % 16;
    }
  }

  /** The pieces with the separators between them again. */
  function Join(parts: seq<Bytes>, sep: byte): (b: Bytes)
    requires parts != []
  {
    if |parts| == 1 then parts[0] else parts[0] + [sep] + Join(parts[1..], sep)
  }

  lemma {:induction false} SplitJoins(b: Bytes, sep: byte)
    ensures Join(Split(b, sep), sep) == b
    ensures forall i :: 0 <= i < |Split(b, sep)| ==> sep !in Split(b, sep)[i]
  {
    if b != [] {
      var tail, parts := Split(b[1..], sep), Split(b, sep);
      SplitJoins(b[1..], sep);
      assert b == [b[0]] + b[1..];
      if b[0] == sep {
        assert parts[1..] == tail;
      } else if |tail| == 1 {
        assert parts == [[b[0]] + tail[0]];
      } else {
        assert parts[1..] == tail[1..] && parts[0] == [b[0]] + tail[0];
      }
    }
  }

  /** A line of the key log: a label, the client random and the secret, with single spaces. */
  ghost predicate IsLine(line: Bytes, i: nat, random: Bytes, secret: Bytes) {
    && i < |LABELS| && IsHex(random) && IsHex(secret)
    && line == Ascii(LABELS[i].0) + [SPACE] + (random + [SPACE] + secret)
  }

  lemma HexHasNoSpace(h: Bytes)
    requires IsHex(h)
    ensures SPACE !in h
  {
  }

  /** Every such line is read as what it says. */
  lemma LineIsRead(line: Bytes, i: nat, random: Bytes, secret: Bytes)
    requires IsLine(line, i, random, secret)
    ensures Unhex(random).Some? && Unhex(secret).Some?
    ensures ParseLine(line) == Some(Entry(LABELS[i].1, Unhex(random).value, Unhex(secret).value))
  {
    hide Ascii, ParseLabel, Unhex, Split, IsHex;
    UnhexIff(random);
    UnhexIff(secret);
    LabelsAre(i);
    LabelClean(LABELS[i].1);
    HexHasNoSpace(random);
    HexHasNoSpace(secret);
    var word := Ascii(LABELS[i].0);
    SplitFirst(word, random + [SPACE] + secret, SPACE);
    SplitFirst(random, secret, SPACE);
    SplitLast(secret, SPACE);
    assert line[0] == word[0];
  }

  /** And nothing else is read at all. */
  lemma OnlyLinesAreRead(line: Bytes) returns (i: nat, random: Bytes, secret: Bytes)
    requires ParseLine(line).Some?
    ensures IsLine(line, i, random, secret)
  {
    hide Ascii, ParseLabel, Unhex, Split, IsHex;
    var words := Split(line, SPACE);
    i := OnlyLabels(words[0]);
    random, secret := words[1], words[2];
    UnhexIff(random);
    UnhexIff(secret);
    SplitJoins(line, SPACE);
    assert words[1..][1..] == [words[2]];
    assert Join(words[1..], SPACE) == random + [SPACE] + secret;
  }

  // ----- loading -----

  /** Adds the entries of the lines in order; a line that does not parse is skipped. */
  function AddLines(keys: Keys, lines: seq<Bytes>): (keys': Keys)
    decreases |lines|
  {
    if lines == [] then keys
    else
      var e := ParseLine(lines[0]);
      AddLines(if e.Some? then WithSecret(keys, e.value) else keys, lines[1..])
  }

  function Load(keys: Keys, log: Bytes): (keys': Keys) {
    AddLines(keys, Split(log, NEWLINE))
  }

  lemma LoadLine(keys: Keys, line: Bytes, rest: Bytes)
    requires NEWLINE !in line
    ensures Load(keys, line + [NEWLINE] + rest)
         == Load(if ParseLine(line).Some? then WithSecret(keys, ParseLine(line).value) else keys, rest)
  {
    hide ParseLine, WithSecret, Split;
    SplitFirst(line, rest, NEWLINE);
    assert ([line] + Split(rest, NEWLINE))[1..] == Split(rest, NEWLINE);
  }

  /** A comment never changes what is loaded, whatever it says. */
  lemma CommentIgnored(keys: Keys, comment: Bytes, rest: Bytes)
    requires comment != [] && comment[0] == HASH && NEWLINE !in comment
    ensures Load(keys, comment + [NEWLINE] + rest) == Load(keys, rest)
  {
    LoadLine(keys, comment, rest);
  }

  // ----- printing -----

  /** The lines of one connection. */
  function PrintKeys(random: ClientRandom, ks: ConnectionKeys): (log: Bytes) {
    if ks == [] then [] else Line(Entry(ks[0].0, random, ks[0].1)) + [NEWLINE] + PrintKeys(random, ks[1..])
  }

  /** The log, with the connections in the given order. */
  function Print(keys: Keys, order: seq<ClientRandom>): (log: Bytes)
    requires forall r :: r in order ==> r in keys
  {
    if order == [] then [] else PrintKeys(order[0], keys[order[0]]) + Print(keys, order[1..])
  }

  lemma LoadPrintedEntry(into: Keys, e: Entry, rest: Bytes)
    ensures Load(into, Line(e) + [NEWLINE] + rest) == Load(WithSecret(into, e), rest)
  {
    hide Line, Load, WithSecret, ParseLine;
    LineWords(e);
    LineRoundTrip(e);
    LoadLine(into, Line(e), rest);
  }

  lemma {:induction false} LoadPrintedKeys(into: Keys, random: ClientRandom, ks: ConnectionKeys, rest: Bytes)
    requires ks != []
    ensures Load(into, PrintKeys(random, ks) + rest) == Load(into[random := Of(into, random) + ks], rest)
    decreases |ks|
  {
    hide Line, Load;
    var e := Entry(ks[0].0, random, ks[0].1);
    var tail := PrintKeys(random, ks[1..]) + rest;
    assert PrintKeys(random, ks) + rest == Line(e) + [NEWLINE] + tail;
    LoadPrintedEntry(into, e, tail);
    if |ks| == 1 {
      assert tail == rest;
      assert ks == [(e.typ, e.secret)];
    } else {
      LoadPrintedKeys(WithSecret(into, e), random, ks[1..], rest);
      SecretThenMore(into, e, ks[1..]);
      assert ks == [(e.typ, e.secret)] + ks[1..];
    }
  }

  lemma SecretThenMore(into: Keys, e: Entry, ks: ConnectionKeys)
    ensures var next := WithSecret(into, e);
            next[e.random := Of(next, e.random) + ks]
              == into[e.random := Of(into, e.random) + ([(e.typ, e.secret)] + ks)]
  {
    var next := WithSecret(into, e);
    assert Of(next, e.random) + ks == Of(into, e.random) + ([(e.typ, e.secret)] + ks);
  }

  /** Every connection has a secret: the database only ever holds what `WithSecret` put there. */
  predicate NoneEmpty(keys: Keys) {
    forall r :: r in keys ==> keys[r] != []
  }

  ghost predicate NoRepeats(order: seq<ClientRandom>) {
    forall i, j :: 0 <= i < j < |order| ==> order[i] != order[j]
  }

  /** Merging the connections of `order`, each behind what `into` has of it. */
  function Merge(into: Keys, keys: Keys, order: seq<ClientRandom>): (merged: Keys)
    requires forall r :: r in order ==> r in keys
    decreases |order|
  {
    if order == [] then into else Merge(into[order[0] := Of(into, order[0]) + keys[order[0]]], keys, order[1..])
  }

  lemma {:induction false} MergeAt(into: Keys, keys: Keys, order: seq<ClientRandom>, r: ClientRandom)
    requires NoRepeats(order) && forall r :: r in order ==> r in keys
    ensures r in Merge(into, keys, order) <==> r in into || r in order
    ensures Of(Merge(into, keys, order), r) == if r in order then Of(into, r) + keys[r] else Of(into, r)
    decreases |order|
  {
    if order != [] {
      var r0 := order[0];
      MergeAt(into[r0 := Of(into, r0) + keys[r0]], keys, order[1..], r);
      assert r in order <==> r == r0 || r in order[1..];
      assert r0 !in order[1..];
    }
  }

  /** Loading a printed log merges it behind what was there. */
  lemma {:induction false} LoadPrinted(into: Keys, keys: Keys, order: seq<ClientRandom>)
    requires NoneEmpty(keys) && NoRepeats(order) && forall r :: r in order ==> r in keys
    ensures Load(into, Print(keys, order)) == Merge(into, keys, order)
    decreases |order|
  {
    hide Load, PrintKeys;
    if order == [] {
      EmptyLog(into);
    } else {
      var r0 := order[0];
      var next := into[r0 := Of(into, r0) + keys[r0]];
      LoadPrintedKeys(into, r0, keys[r0], Print(keys, order[1..]));
      LoadPrinted(next, keys, order[1..]);
    }
  }

  lemma EmptyLog(keys: Keys)
    ensures Load(keys, []) == keys
  {
    assert Split([], NEWLINE) == [[]];
    assert Split([], SPACE) == [[]];
    assert ParseLine([]) == None;
    assert AddLines(keys, [[]]) == AddLines(keys, [[]][1..]);
  }

  /** The iteration order of a hash map: every key once. */
  ghost predicate IterationOf(order: seq<ClientRandom>, keys: Keys) {
    NoRepeats(order) && forall r :: r in order <==> r in keys
  }

  /** Printing and loading into an empty database restores the same map, in any iteration order. */
  lemma ReloadRestores(keys: Keys, order: seq<ClientRandom>)
    requires NoneEmpty(keys) && IterationOf(order, keys)
    ensures Load(map[], Print(keys, order)) == keys
  {
    hide Load, Print, Merge;
    LoadPrinted(map[], keys, order);
    forall r
      ensures r in Merge(map[], keys, order) <==> r in keys
      ensures r in keys ==> Merge(map[], keys, order)[r] == keys[r]
    {
      MergeAt(map[], keys, order, r);
    }
  }

  // ----- the database -----

  /** Appends the lines of one connection. */
  method WriteKeys(log: Bytes, random: ClientRandom, ks: ConnectionKeys) returns (log': Bytes)
    ensures log' == log + PrintKeys(random, ks)
  {
    hide Line;
    log' := log;
    for j := 0 to |ks|
      invariant log' + PrintKeys(random, ks[j..]) == log + PrintKeys(random, ks)
    {
      assert ks[j..][1..] == ks[j + 1..];
      ghost var before := log';
      var line := Line(Entry(ks[j].0, random, ks[j].1)) + [NEWLINE];
      log' := log' + line;
      assert before + (line + PrintKeys(random, ks[j + 1..])) == log' + PrintKeys(random, ks[j + 1..]);
    }
  }

  class KeyDB {
    var keys: Keys

    constructor ()
      ensures keys == map[] && NoneEmpty(keys)
    {
      keys := map[];
    }

    method LookupSecret(random: ClientRandom, typ: SecretType) returns (s: Option<Secret>)
      ensures s == Lookup(keys, random, typ)
    {
      if random !in keys {
        return None;
      }
      var ks := keys[random];
      for i := 0 to |ks|
        invariant First(ks, typ) == First(ks[i..], typ)
      {
        if ks[i].0 == typ {
          return Some(ks[i].1);
        }
      }
      return None;
    }

    method OnSecret(random: ClientRandom, typ: SecretType, secret: Secret)
      modifies this
      ensures keys == WithSecret(old(keys), Entry(typ, random, secret))
      ensures Extends(keys, old(keys)) && (old(NoneEmpty(keys)) ==> NoneEmpty(keys))
    {
      SecretsStay(keys, Entry(typ, random, secret));
      if random in keys {
        keys := keys[random := keys[random] + [(typ, secret)]];
      } else {
        keys := keys[random := [(typ, secret)]];
        assert [] + [(typ, secret)] == [(typ, secret)];
      }
    }

    /** Loads a log; `reported` is what the caller's callback is told, in order. */
    method LoadKeyLog(log: Bytes) returns (reported: seq<Entry>)
      modifies this
      ensures keys == Load(old(keys), log)
      ensures old(NoneEmpty(keys)) ==> NoneEmpty(keys)
      ensures reported == Reported(Split(log, NEWLINE))
    {
      hide WithSecret, ParseLine, Split, Lookup, NoneEmpty;
      var lines := Split(log, NEWLINE);
      reported := [];
      for i := 0 to |lines|
        invariant AddLines(old(keys), lines) == AddLines(keys, lines[i..])
        invariant reported + Reported(lines[i..]) == Reported(lines)
        invariant old(NoneEmpty(keys)) ==> NoneEmpty(keys)
      {
        var e := ParseLine(lines[i]);
        assert lines[i..][1..] == lines[i + 1..];
        if e.Some? {
          OnSecret(e.value.random, e.value.typ, e.value.secret);
          reported := reported + [e.value];
        }
      }
    }

    /** Writes the log, visiting the connections in the given order. */
    method ToKeyLog(order: seq<ClientRandom>) returns (log: Bytes)
      requires forall r :: r in order ==> r in keys
      ensures log == Print(keys, order)
      ensures NoneEmpty(keys) && IterationOf(order, keys) ==> Load(map[], log) == keys
    {
      hide PrintKeys, Load;
      log := [];
      for i := 0 to |order|
        invariant log + Print(keys, order[i..]) == Print(keys, order)
      {
        assert order[i..][1..] == order[i + 1..];
        ghost var before := log;
        log := WriteKeys(log, order[i], keys[order[i]]);
        assert before + (PrintKeys(order[i], keys[order[i]]) + Print(keys, order[i + 1..]))
               == log + Print(keys, order[i + 1..]);
      }
      if NoneEmpty(keys) && IterationOf(order, keys) {
        ReloadRestores(keys, order);
      }
    }
  }

  function Reported(lines: seq<Bytes>): (es: seq<Entry>) {
    if lines == [] then []
    else
      var e := ParseLine(lines[0]);
      (if e.Some? then [e.value] else []) + Reported(lines[1..])
  }
}

/** The static table of Appendix A of RFC 7541, and the decoder's table against it. */
module HpackAppendix {
  import opened HpackHeader
  import opened Octets
  import opened HpackStatic

  const PSEUDO: seq<(string, string)> := [
    (":authority", ""), (":method", "GET"), (":method", "POST"), (":path", "/"), (":path", "/index.html"),
    (":scheme", "http"), (":scheme", "https"), (":status", "200"), (":status", "204"), (":status", "206"),
    (":status", "304"), (":status", "400"), (":status", "404"), (":status", "500")]

  const FIELDS_15: seq<(string, string)> := [
    ("accept-charset", ""), ("accept-encoding", "gzip, deflate"), ("accept-language", ""), ("accept-ranges", ""),
    ("accept", ""), ("access-control-allow-origin", ""), ("age", ""), ("allow", "")]

  const FIELDS_23: seq<(string, string)> := [
    ("authorization", ""), ("cache-control", ""), ("content-disposition", ""), ("content-encoding", ""),
    ("content-language", ""), ("content-length", ""), ("content-location", ""), ("content-range", "")]

  const FIELDS_31: seq<(string, string)> := [
    ("content-type", ""), ("cookie", ""), ("date", ""), ("etag", ""), ("expect", ""), ("expires", ""), ("from", ""),
    ("host", "")]

  const FIELDS_39: seq<(string, string)> := [
    ("if-match", ""), ("if-modified-since", ""), ("if-none-match", ""), ("if-range", ""),
    ("if-unmodified-since", ""), ("last-modified", ""), ("link", ""), ("location", "")]

  const FIELDS_47: seq<(string, string)> := [
    ("max-forwards", ""), ("proxy-authenticate", ""), ("proxy-authorization", ""), ("range", ""), ("referer", ""),
    ("refresh", ""), ("retry-after", ""), ("server", "")]

  const FIELDS_55: seq<(string, string)> := [
    ("set-cookie", ""), ("strict-transport-security", ""), ("transfer-encoding", ""), ("user-agent", ""),
    ("vary", ""), ("via", ""), ("www-authenticate", "")]

  /** The whole table, counted from zero. */
  const TABLE: seq<(string, string)> :=
    PSEUDO + FIELDS_15 + FIELDS_23 + FIELDS_31 + FIELDS_39 + FIELDS_47 + FIELDS_55

  ghost predicate Row(h: Header, row: (string, string)) {
    NameSlice(h.name) == Ascii(row.0) && h.value == Ascii(row.1) && !h.sensitive
  }

  lemma Rows1(i: nat)
    requires 1 <= i <= 14
    ensures Row(PseudoEntry(i), PSEUDO[i - 1])
  {
    hide Ascii;
    assert i == 1 || i == 2 || i == 3 || i == 4 || i == 5 || i == 6 || i == 7
           || i == 8 || i == 9 || i == 10 || i == 11 || i == 12 || i == 13 || i == 14;
  }

  lemma Rows15(i: nat)
    requires 15 <= i <= 22
    ensures Row(FieldEntry(i), FIELDS_15[i - 15])
  {
    hide Ascii, AuthorizationEntries;
    assert i == 15 || i == 16 || i == 17 || i == 18 || i == 19 || i == 20 || i == 21 || i == 22;
  }

  lemma Rows23(i: nat)
    requires 23 <= i <= 30
    ensures Row(AuthorizationEntries(i), FIELDS_23[i - 23])
  {
    hide Ascii, ContentTypeEntries;
    assert i == 23 || i == 24 || i == 25 || i == 26 || i == 27 || i == 28 || i == 29 || i == 30;
  }

  lemma Rows31(i: nat)
    requires 31 <= i <= 38
    ensures Row(ContentTypeEntries(i), FIELDS_31[i - 31])
  {
    hide Ascii, IfMatchEntries;
    assert i == 31 || i == 32 || i == 33 || i == 34 || i == 35 || i == 36 || i == 37 || i == 38;
  }

  lemma Rows39(i: nat)
    requires 39 <= i <= 46
    ensures Row(IfMatchEntries(i), FIELDS_39[i - 39])
  {
    hide Ascii, MaxForwardsEntries;
    assert i == 39 || i == 40 || i == 41 || i == 42 || i == 43 || i == 44 || i == 45 || i == 46;
  }

  lemma Rows47(i: nat)
    requires 47 <= i <= 54
    ensures Row(MaxForwardsEntries(i), FIELDS_47[i - 47])
  {
    hide Ascii, SetCookieEntries;
    assert i == 47 || i == 48 || i == 49 || i == 50 || i == 51 || i == 52 || i == 53 || i == 54;
  }

  lemma Rows55(i: nat)
    requires 55 <= i <= 61
    ensures Row(SetCookieEntries(i), FIELDS_55[i - 55])
  {
    hide Ascii;
    assert i == 55 || i == 56 || i == 57 || i == 58 || i == 59 || i == 60 || i == 61;
  }

  /** The chunks of the table in their places. */
  lemma Placed(i: nat)
    requires 1 <= i <= 61
    ensures |TABLE| == 61
    ensures TABLE[i - 1] ==
            if i <= 14 then PSEUDO[i - 1]
            else if i <= 22 then FIELDS_15[i - 15]
            else if i <= 30 then FIELDS_23[i - 23]
            else if i <= 38 then FIELDS_31[i - 31]
            else if i <= 46 then FIELDS_39[i - 39]
            else if i <= 54 then FIELDS_47[i - 47]
            else FIELDS_55[i - 55]
  {
    var a := PSEUDO + FIELDS_15;
    var b := a + FIELDS_23;
    var c := b + FIELDS_31;
    var d := c + FIELDS_39;
    var e := d + FIELDS_47;
    assert |a| == 22 && |b| == 30 && |c| == 38 && |d| == 46 && |e| == 54;
  }

  /** Which part of the decoder's table an index is in. */
  lemma Deeper(i: nat)
    requires 23 <= i <= 61
    ensures FieldEntry(i) == AuthorizationEntries(i)
    ensures i >= 31 ==> AuthorizationEntries(i) == ContentTypeEntries(i)
    ensures i >= 39 ==> ContentTypeEntries(i) == IfMatchEntries(i)
    ensures i >= 47 ==> IfMatchEntries(i) == MaxForwardsEntries(i)
    ensures i >= 55 ==> MaxForwardsEntries(i) == SetCookieEntries(i)
  {
    hide FieldHeader;
  }

  /** The decoder's static table is that of the standard. */
  lemma StaticTableIs(i: nat)
    requires 1 <= i <= 61
    ensures |TABLE| == 61 && Row(GetStatic(i), TABLE[i - 1])
  {
    hide Row, PseudoEntry, FieldEntry;
    hide AuthorizationEntries, ContentTypeEntries, IfMatchEntries, MaxForwardsEntries, SetCookieEntries;
    Placed(i);
    if i >= 23 {
      Deeper(i);
    }
    if i <= 14 {
      Rows1(i);
    } else if i <= 22 {
      Rows15(i);
    } else if i <= 30 {
      Rows23(i);
    } else if i <= 38 {
      Rows31(i);
    } else if i <= 46 {
      Rows39(i);
    } else if i <= 54 {
      Rows47(i);
    } else {
      Rows55(i);
    }
  }
}

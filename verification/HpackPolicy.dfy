/** Which headers the encoder stores, how it represents each, and what it marks as never to be stored. */
module HpackPolicy {
  import opened HpackHeader
  import opened Octets
  import opened HpackFifo
  import opened HpackStatic

  /** Fields whose values change too often, or are too secret, to be kept; so is `:path`. */
  const UNSTORED: seq<string> := [
    "age", "authorization", "content-length", "cookie", "etag",
    "if-modified-since", "if-none-match", "location", "set-cookie"]

  ghost predicate Unstored(h: Header) {
    h.name == Path || (h.name.Field? && exists s :: s in UNSTORED && h.name.text == Ascii(s))
  }

  ghost predicate NoneUnstored(es: Entries) {
    forall i :: 0 <= i < |es| ==> !Unstored(es[i])
  }

  lemma SkipsUnstored(h: Header)
    ensures SkipValueIndex(h) <==> Unstored(h)
  {
    hide Ascii;
    var l := UNSTORED;
    assert l[0] == "age" && l[1] == "authorization" && l[2] == "content-length" && l[3] == "cookie" && l[4] == "etag";
    assert l[5] == "if-modified-since" && l[6] == "if-none-match" && l[7] == "location" && l[8] == "set-cookie";
    assert forall s :: s in l <==> s in {l[0], l[1], l[2], l[3], l[4], l[5], l[6], l[7], l[8]};
  }

  // ----- the static table -----

  /** A name of the static table. */
  ghost predicate StaticName(n: Name) {
    exists i :: 1 <= i <= 61 && GetStatic(i).name == n
  }

  /** An entry of the static table that has a value. */
  ghost predicate StaticHeader(h: Header) {
    h.value != [] && exists i :: 1 <= i <= 61 && SameNameValue(GetStatic(i), h)
  }

  lemma Nameable(i: nat, value: Bytes)
    requires 1 <= i <= 61
    ensures IndexStatic(Header(GetStatic(i).name, value, false)).Some?
  {
    if i <= 14 {
      hide Ascii, FieldStatic;
    } else {
      hide Ascii, FromAuthorization, AuthorizationEntries;
      if i >= 23 {
        Nameable23(i);
      }
    }
  }

  lemma Nameable23(i: nat)
    requires 23 <= i <= 61
    ensures var h := AuthorizationEntries(i); h.name.Field? && FromAuthorization(h.name.text).Some?
  {
    hide Ascii, FromContentType, ContentTypeEntries;
    if i >= 31 {
      Nameable31(i);
    }
  }

  lemma Nameable31(i: nat)
    requires 31 <= i <= 61
    ensures var h := ContentTypeEntries(i); h.name.Field? && FromContentType(h.name.text).Some?
  {
    hide Ascii, FromIfMatch, IfMatchEntries;
    if i >= 39 {
      Nameable39(i);
    }
  }

  lemma Nameable39(i: nat)
    requires 39 <= i <= 61
    ensures var h := IfMatchEntries(i); h.name.Field? && FromIfMatch(h.name.text).Some?
  {
    hide Ascii, FromMaxForwards, MaxForwardsEntries;
    if i >= 47 {
      Nameable47(i);
    }
  }

  lemma Nameable47(i: nat)
    requires 47 <= i <= 61
    ensures var h := MaxForwardsEntries(i); h.name.Field? && FromMaxForwards(h.name.text).Some?
  {
    hide Ascii, FromSetCookie, SetCookieEntries;
    if i >= 55 {
      Nameable55(i);
    }
  }

  lemma Nameable55(i: nat)
    requires 55 <= i <= 61
    ensures var h := SetCookieEntries(i); h.name.Field? && FromSetCookie(h.name.text).Some?
  {
    hide Ascii;
  }

  /** What the encoder finds in the static table does not depend on the value, nor on the mark. */
  lemma ValueAside(h: Header, value: Bytes)
    ensures IndexStatic(h).Some? <==> IndexStatic(Header(h.name, value, false)).Some?
  {
    hide Ascii, FromAuthorization;
  }

  /** The encoder finds every name of the static table, and no other. */
  lemma FindsStaticName(h: Header)
    ensures IndexStatic(h).Some? <==> StaticName(h.name)
  {
    hide GetStatic, IndexStatic;
    IndexStaticFits(h);
    if StaticName(h.name) {
      var i :| 1 <= i <= 61 && GetStatic(i).name == h.name;
      Nameable(i, h.value);
      ValueAside(h, h.value);
    }
  }

  /** Beyond the pseudo headers only one entry has a value. */
  lemma OneValue(i: nat)
    requires 15 <= i <= 61 && GetStatic(i).value != []
    ensures i == 16
  {
    hide PseudoEntry, FieldEntry;
  }

  lemma PseudoFound(i: nat, h: Header)
    requires 1 <= i <= 14 && SameNameValue(GetStatic(i), h) && h.value != []
    ensures IndexStatic(h).Some? && IndexStatic(h).value.1
  {
    hide FieldStatic, FieldEntry;
  }

  lemma EncodingFound(h: Header)
    requires SameNameValue(GetStatic(16), h)
    ensures IndexStatic(h).Some? && IndexStatic(h).value.1
  {
    hide PseudoEntry, FromAuthorization;
    AsciiDiffers("accept-encoding", "accept-charset");
  }

  lemma AsciiDiffers(s: string, t: string)
    requires |s| != |t| || exists i :: 0 <= i < |s| && s[i] as int < 256 && t[i] as int < 256 && s[i] != t[i]
    ensures Ascii(s) != Ascii(t)
  {
    if |s| == |t| {
      var i :| 0 <= i < |s| && s[i] as int < 256 && t[i] as int < 256 && s[i] != t[i];
      assert Ascii(s)[i] != Ascii(t)[i];
    }
  }

  lemma FullMatchHasValue(h: Header)
    requires IndexStatic(h).Some? && IndexStatic(h).value.1
    ensures h.value != []
  {
    hide FromAuthorization, Ascii;
    HasLength("GET");
    HasLength("POST");
    HasLength("http");
    HasLength("https");
    HasLength("/");
    HasLength("/index.html");
    HasLength("gzip, deflate");
    StatusesHaveLength();
  }

  lemma StatusesHaveLength()
    ensures Ascii("200") != [] && Ascii("204") != [] && Ascii("206") != [] && Ascii("304") != []
    ensures Ascii("400") != [] && Ascii("404") != [] && Ascii("500") != []
  {
    hide Ascii;
    HasLength("200");
    HasLength("204");
    HasLength("206");
    HasLength("304");
    HasLength("400");
    HasLength("404");
    HasLength("500");
  }

  lemma HasLength(s: string)
    ensures |Ascii(s)| == |s|
  {
  }

  /** The encoder finds every entry of the static table that has a value, whole. */
  lemma FindsStaticHeader(h: Header)
    ensures IndexStatic(h).Some? && IndexStatic(h).value.1 <==> StaticHeader(h)
  {
    hide GetStatic, IndexStatic;
    if IndexStatic(h).Some? && IndexStatic(h).value.1 {
      IndexStaticFits(h);
      FullMatchHasValue(h);
      assert SameNameValue(GetStatic(IndexStatic(h).value.0), h);
    }
    if StaticHeader(h) {
      var i :| 1 <= i <= 61 && SameNameValue(GetStatic(i), h);
      if i <= 14 {
        PseudoFound(i, h);
      } else {
        OneValue(i);
        EncodingFound(h);
      }
    }
  }

  // ----- what is stored, and how it is represented -----

  /** A header takes at most three quarters of the table. */
  predicate Small(h: Header, max: nat) {
    Len(h) * 4 <= max * 3
  }

  /**
   Exactly when a header is in the table afterwards, when it is sent as one index, and when its name is
   written out.
   */
  lemma Chooses(es: Entries, max: nat, h: Header)
    requires NoneUnstored(es)
    ensures var (i, es') := IndexHeader(es, max, h);
            && (HasHeader(es', h) <==>
                  HasHeader(es, h) || (!h.sensitive && !Unstored(h) && !StaticHeader(h) && Small(h, max)))
            && (i.Indexed? <==> StaticHeader(h) || (HasHeader(es, h) && Small(h, max)))
            && (i.Inserted? || i.NotIndexed? <==> !StaticName(h.name) && !(HasName(es, h.name) && Small(h, max)))
            && (i.Inserted? || i.InsertedValue? <==> es' != es || (HasHeader(es', h) && !HasHeader(es, h)))
  {
    hide IndexStatic, SkipValueIndex, StaticName, StaticHeader, EvictTo, Unstored;
    SkipsUnstored(h);
    FindsStaticName(h);
    FindsStaticHeader(h);
    SkippedIsStatic2(h);
    NotStored(es, h);
    NoNameNoHeader(es, h);
    if Len(h) <= max {
      InFront(es, h, max);
    }
  }

  lemma SkippedIsStatic2(h: Header)
    ensures SkipValueIndex(h) ==> IndexStatic(h).Some?
  {
    hide IndexStatic, SkipValueIndex;
    if SkipValueIndex(h) {
      SkippedIsStatic(h);
    }
  }

  lemma NotStored(es: Entries, h: Header)
    requires NoneUnstored(es)
    ensures Unstored(h) ==> !HasHeader(es, h)
  {
    if HasHeader(es, h) {
      var i :| 0 <= i < |es| && SameNameValue(es[i], h);
      assert !Unstored(es[i]);
    }
  }

  lemma InFront(es: Entries, h: Header, max: nat)
    requires Len(h) <= max
    ensures HasHeader(Insert(es, h, max), h)
  {
    assert SameNameValue(Insert(es, h, max)[0], h);
  }

  lemma EvictUnstored(es: Entries, limit: nat)
    requires NoneUnstored(es)
    ensures NoneUnstored(EvictTo(es, limit))
  {
    hide Unstored;
  }

  /** Indexing never puts such a header in the table. */
  lemma IndexUnstored(es: Entries, max: nat, h: Header)
    requires NoneUnstored(es)
    ensures NoneUnstored(IndexHeader(es, max, h).1)
  {
    hide IndexStatic, SkipValueIndex, Unstored, EvictTo;
    SkipsUnstored(h);
    if Len(h) <= max {
      EvictUnstored(es, max - Len(h));
    }
  }

  /** Nor does any run of calls on the table. */
  lemma {:induction false} RunUnstored(es: Entries, max: nat, calls: seq<Call>)
    requires NoneUnstored(es)
    ensures NoneUnstored(ScanRun(es, max, calls).1)
    decreases |calls|
  {
    hide IndexHeader, NoneUnstored, EvictTo;
    if calls != [] {
      match calls[0]
      case Indexing(h) =>
        IndexUnstored(es, max, h);
        RunUnstored(IndexHeader(es, max, h).1, max, calls[1..]);
      case Resizing(n) =>
        EvictUnstored(es, n);
        RunUnstored(EvictTo(es, n), n, calls[1..]);
    }
  }
}

/** Going away in good order, over every run of a connection (section 6.8 of RFC 7540). */
module H2Shutdown {
  import opened Wrappers
  import opened Supply
  import opened H2Codec
  import opened H2GoAway
  import opened H2Loop
  import opened H2Promise
  import opened H2Events

  const FIRST_GOAWAY := GoAwayOut(MAX_STREAM_ID, NO_ERROR)

  /** The GOAWAY for every stream has been written, and the PING that measures a round trip behind it. */
  ghost predicate Announces(out: seq<Out>) {
    exists i, j :: 0 <= i < j < |out| && out[i] == FIRST_GOAWAY && out[j] == PingOut(SHUTDOWN)
  }

  /** The round trip is over. */
  ghost predicate TripDone(log: seq<In>) {
    PingIn(true, SHUTDOWN) in log
  }

  /**
   A shutdown that nothing has cut short: until the PING is answered every stream may still be opened, and
   afterwards none above the id announced.  The PING goes out behind the first GOAWAY.
   */
  ghost predicate Orderly(s: Snap) {
    && (s.ping.Some? ==> s.ping.value.payload == SHUTDOWN && s.goingAway.Some?)
    && (s.goingAway.Some? && !s.closeNow ==>
          if s.ping.Some? then s.goingAway == Some(Notice(MAX_STREAM_ID, NO_ERROR))
          else s.goingAway.value == Notice(s.maxId, NO_ERROR) && TripDone(s.w.log))
    && (s.ping.Some? && !s.closeNow && s.pending.None? ==> FIRST_GOAWAY in s.w.buffered)
    && (s.ping.Some? && s.ping.value.sent ==> Announces(s.w.buffered))
  }

  /** Only the frames written may differ, and there are more of them. */
  ghost predicate WritesMore(s: Snap, s': Snap) {
    && s.w.buffered <= s'.w.buffered && s'.w.log == s.w.log
    && s'.ping == s.ping && s'.closeNow == s.closeNow && s'.goingAway == s.goingAway && s'.maxId == s.maxId
  }

  lemma AnnouncesMore(out: seq<Out>, out': seq<Out>)
    requires out <= out'
    ensures Announces(out) ==> Announces(out')
    ensures FIRST_GOAWAY in out ==> FIRST_GOAWAY in out'
  {
    assert forall i :: 0 <= i < |out| ==> out[i] == out'[i];
    if Announces(out) {
      var i, j :| 0 <= i < j < |out| && out[i] == FIRST_GOAWAY && out[j] == PingOut(SHUTDOWN);
      assert out'[i] == FIRST_GOAWAY && out'[j] == PingOut(SHUTDOWN);
    }
  }

  lemma WritingKeeps(s: Snap, s': Snap)
    requires Orderly(s) && WritesMore(s, s') && s'.pending == s.pending
    ensures Orderly(s')
  {
    hide Announces, TripDone;
    AnnouncesMore(s.w.buffered, s'.w.buffered);
  }

  // ----- the parts of a round -----

  lemma GoAwayOrderly(s: Snap)
    requires Orderly(s) && GoAwayOk(s) && !GoAwayOn(s).1.Broke?
    ensures Orderly(GoAwayOn(s).0)
  {
    hide Announces, TripDone;
    var s' := GoAwayOn(s).0;
    AnnouncesMore(s.w.buffered, s'.w.buffered);
    if s.pending.Some? && s'.pending.None? {
      var f := GoAwayOut(s.pending.value.id, s.pending.value.reason);
      assert s'.w.buffered == s.w.buffered + [f];
      assert f in s'.w.buffered;
    }
  }

  lemma PongOrderly(s: Snap)
    requires Orderly(s)
    ensures Orderly(PongOn(s).0)
  {
    hide Orderly;
    WritingKeeps(s, PongOn(s).0);
  }

  lemma PingOrderly(s: Snap)
    requires Orderly(s) && !s.closeNow && s.pending.None?
    ensures Orderly(PingOn(s).0)
  {
    hide Announces, TripDone;
    var s' := PingOn(s).0;
    AnnouncesMore(s.w.buffered, s'.w.buffered);
    if s.ping.Some? && s'.ping != s.ping {
      Behind(s.w.buffered);
    }
  }

  lemma Behind(out: seq<Out>)
    requires FIRST_GOAWAY in out
    ensures Announces(out + [PingOut(SHUTDOWN)])
  {
    var i :| 0 <= i < |out| && out[i] == FIRST_GOAWAY;
    var out' := out + [PingOut(SHUTDOWN)];
    assert out'[i] == FIRST_GOAWAY && out'[|out|] == PingOut(SHUTDOWN);
  }

  lemma SettingsOrderly(s: Snap)
    requires Orderly(s)
    ensures Orderly(SettingsOn(s).0)
  {
    hide Orderly;
    WritingKeeps(s, SettingsOn(s).0);
  }

  lemma ReadyOrderly(s: Snap)
    requires Orderly(s) && !s.closeNow && s.pending.None?
    ensures Orderly(ReadyOn(s).0)
  {
    hide Orderly, PongOn, PingOn, SettingsOn;
    PongOrderly(s);
    PongSends(s);
    var s1 := PongOn(s).0;
    PingOrderly(s1);
    PingSends(s1);
    var s2 := PingOn(s1).0;
    SettingsOrderly(s2);
    var s3 := SettingsOn(s2).0;
    WritingKeeps(s3, Ask(s3));
  }

  lemma ReadOrderly(s: Snap)
    requires Orderly(s) && !s.closeNow
    ensures Orderly(ReadOn(s).0)
  {
    hide Announces;
  }

  lemma RoundOrderly(s: Snap)
    requires Orderly(s) && GoAwayOk(s) && RoundOn(s).1 != Some(Failed(IoFault))
    ensures Orderly(RoundOn(s).0)
  {
    hide Orderly, GoAwayOn, ReadyOn, ReadOn;
    GoAwayKeeps(s);
    var (s1, p) := GoAwayOn(s);
    if !p.Broke? {
      GoAwayOrderly(s);
      if !p.Blocked? && !(p.Sent? && ShouldClose(s1)) {
        ReadyOrderly(s1);
        ReadySends(s1);
        var (s2, ready) := ReadyOn(s1);
        if ready.Done? {
          ReadOrderly(s2);
        }
      }
    }
  }

  lemma {:induction false} Poll2Orderly(s: Snap)
    requires Orderly(s) && GoAwayOk(s) && Poll2On(s).1 != Failed(IoFault)
    ensures Orderly(Poll2On(s).0)
    decreases Left(s)
  {
    hide Orderly, RoundOn;
    var (s1, r) := RoundOn(s);
    RoundOrderly(s);
    RoundKeeps(s);
    if r.None? {
      Poll2Orderly(s1);
    }
  }

  // ----- closing -----

  /** Why a connection that has not been told to closes at once. */
  ghost predicate Excused(s: Snap) {
    s.error.Some? || TripDone(s.w.log)
  }

  ghost predicate SomeFault(w: World, w': World)
    requires Advances(w, w')
  {
    exists reason :: FaultSeen(w, w', ConnFault(reason))
  }

  /** A connection comes to close at once only when it is excused or has seen a fault. */
  ghost predicate WhyClosed(s: Snap, s': Snap)
    requires Advances(s.w, s'.w)
  {
    s'.closeNow ==> s.closeNow || Excused(s') || SomeFault(s.w, s'.w)
  }

  lemma CloseOrderly(s: Snap, reason: nat)
    requires Orderly(s)
    ensures Orderly(CloseOn(s, reason))
  {
    hide Announces, TripDone;
  }

  lemma HandleOrderly(s: Snap, r: Poll2Result)
    requires Orderly(s) && !r.Pending?
    ensures Orderly(HandleOn(s, r).0)
  {
    hide Announces, TripDone;
  }

  lemma OpenOrderly(s: Snap)
    requires Orderly(s) && GoAwayOk(s) && s.state.Open? && OpenOn(s).1 != Some(false)
    ensures Orderly(OpenOn(s).0) && Advances(s.w, OpenOn(s).0.w) && WhyClosed(s, OpenOn(s).0)
  {
    hide Orderly, Poll2On, HandleOn, Advances, FaultSeen, TripDone, Explained;
    Poll2World(s);
    var (s1, r) := Poll2On(s);
    OpenWorld(s);
    if r == Failed(IoFault) {
      HandleFits(s1, r);
    } else {
      Poll2Orderly(s);
      if r.Pending? {
        var s2 := Ask(s1);
        WritingKeeps(s1, s2);
        CloseOrderly(s2, NO_ERROR);
        IdleExcused(s2);
      } else {
        HandleOrderly(s1, r);
        HandleWhy(s, s1, r);
      }
    }
  }

  /** A connection that may close on idle has made its round trip. */
  lemma IdleExcused(s: Snap)
    requires Orderly(s)
    ensures ShouldCloseOnIdle(s) ==> TripDone(s.w.log)
  {
  }

  lemma HandleWhy(s: Snap, s1: Snap, r: Poll2Result)
    requires !r.Pending? && Advances(s.w, s1.w) && Explained(s, s1, r) && Keeps(s, s1)
    ensures var s' := HandleOn(s1, r).0; Advances(s.w, s'.w) && WhyClosed(s, s')
  {
    hide Advances, FaultSeen, EndSeen, Refusal, Silence, HeardOut, Quiet;
    if r.Failed? && r.fault.ConnFault? && FaultSeen(s.w, s1.w, r.fault) {
      assert SomeFault(s.w, s1.w);
    }
  }

  // ----- polls -----

  lemma ClosingOrderly(s: Snap)
    requires Orderly(s) && s.state.Closing?
    ensures Orderly(PollOn(s).0) && PollOn(s).0.closeNow == s.closeNow
  {
    hide Orderly;
    assert PollOn(Ask(s).(state := Closed(s.state.reason))) == (Ask(s).(state := Closed(s.state.reason)), true);
    WritingKeeps(s, PollOn(s).0);
  }

  lemma WhyAfter(s: Snap, s1: Snap, s': Snap, es: seq<Event>)
    requires Advances(s.w, s1.w) && Advances(s1.w, s'.w) && Reads(s1, s', es)
    requires WhyClosed(s, s1) && WhyClosed(s1, s')
    ensures Advances(s.w, s'.w) && WhyClosed(s, s')
  {
    hide Advances, FaultSeen, Reads;
    AdvancesTwice(s.w, s1.w, s'.w);
    LogGrows(s1.w, s'.w);
    ErrorStays(s1, s', es);
    if SomeFault(s.w, s1.w) {
      var reason :| FaultSeen(s.w, s1.w, ConnFault(reason));
      assert FaultSeen(s.w, s'.w, ConnFault(reason));
    }
    if SomeFault(s1.w, s'.w) {
      var reason :| FaultSeen(s1.w, s'.w, ConnFault(reason));
      assert FaultSeen(s.w, s'.w, ConnFault(reason));
    }
  }

  lemma LogGrows(w: World, w': World)
    requires Advances(w, w')
    ensures TripDone(w.log) ==> TripDone(w'.log)
  {
  }

  lemma {:induction false} PollOrderly(s: Snap)
    requires Orderly(s) && GoAwayOk(s) && PollOn(s).1
    ensures Orderly(PollOn(s).0) && Advances(s.w, PollOn(s).0.w) && WhyClosed(s, PollOn(s).0)
    decreases Left(s), Rank(s.state)
  {
    hide Orderly, OpenOn, Advances, WhyClosed, GoAwayOk, Reads;
    PollPromises(s);
    match s.state
    case Closed(_) =>
      SameWhy(s, s);
    case Closing(_) =>
      ClosingOrderly(s);
      SameWhy(s, PollOn(s).0);
    case Open =>
      OpenShrinks(s);
      OpenWorld(s);
      OpenOrderly(s);
      var (s1, r) := OpenOn(s);
      if r.None? {
        PollOrderly(s1);
        var es := PollReads(s1);
        WhyAfter(s, s1, PollOn(s1).0, es);
      }
  }

  lemma SameWhy(s: Snap, s': Snap)
    requires Advances(s.w, s'.w) && s'.closeNow == s.closeNow
    ensures WhyClosed(s, s')
  {
  }

  // ----- idle connections -----

  /** The last answer used. */
  ghost predicate LastAnswer(s: Snap, s': Snap, t: Turn)
    requires Advances(s.w, s'.w)
  {
    var ts := Given(s.w.script, s'.w.script);
    ts != [] && ts[|ts| - 1] == t
  }

  /** Nothing calls for the connection to close: it has streams, or the peer has not said GOAWAY and we have not. */
  ghost predicate Needed(s: Snap, t: Turn) {
    t.hasStreams || (s.error.None? && !ShouldCloseOnIdle(s))
  }

  lemma OpenNeeded(s: Snap) returns (t: Turn)
    requires GoAwayOk(s) && s.state.Open? && OpenOn(s).1 == Some(true)
    ensures Advances(s.w, OpenOn(s).0.w)
    ensures Refusal(s.w, OpenOn(s).0.w) || (LastAnswer(s, OpenOn(s).0, t) && Needed(OpenOn(s).0, t))
  {
    hide Poll2On, Refusal, HandleOn, FramesIn, Goes, Given;
    Poll2World(s);
    OpenWorld(s);
    var (s1, r) := Poll2On(s);
    t := Answer(s1);
    if r.Pending? {
      AskWorld(s1);
      AdvancesTwice(s.w, s1.w, Ask(s1).w);
      SpendGoes(s1.w.script);
      GoesTwice(s.w.script, s1.w.script, Ask(s1).w.script);
    } else {
      HandleFits(s1, r);
    }
  }

  lemma LastAfter(s: Snap, s1: Snap, s': Snap, t: Turn)
    requires Advances(s.w, s1.w) && Advances(s1.w, s'.w) && LastAnswer(s1, s', t)
    ensures Advances(s.w, s'.w) && LastAnswer(s, s', t)
  {
    hide FramesIn, Goes, Given;
    AdvancesTwice(s.w, s1.w, s'.w);
    GoesTwice(s.w.script, s1.w.script, s'.w.script);
  }

  /** A connection that stays open, although the socket refused nothing, is still needed: otherwise it closes. */
  lemma {:induction false} PollNeeded(s: Snap) returns (t: Turn)
    requires GoAwayOk(s) && PollOn(s).1 && PollOn(s).0.state.Open?
    ensures Advances(s.w, PollOn(s).0.w)
    ensures Refusal(s.w, PollOn(s).0.w) || (LastAnswer(s, PollOn(s).0, t) && Needed(PollOn(s).0, t))
    decreases Left(s), Rank(s.state)
  {
    hide OpenOn, Advances, Refusal, LastAnswer, GoAwayOk, Needed;
    PollPromises(s);
    OpenShrinks(s);
    OpenWorld(s);
    var (s1, r) := OpenOn(s);
    if r.Some? {
      t := OpenNeeded(s);
    } else {
      t := PollNeeded(s1);
      PollPromises(s1);
      var s' := PollOn(s1).0;
      AdvancesTwice(s.w, s1.w, s'.w);
      if !Refusal(s1.w, s'.w) {
        LastAfter(s, s1, s', t);
      }
    }
  }

  // ----- whole runs -----

  lemma CallOrderly(s: Snap, call: UserCall)
    requires Orderly(s) && GoAwayOk(s) && !call.Polling?
    ensures Orderly(CallOn(s, call).0)
    ensures CallOn(s, call).0.error == s.error && CallOn(s, call).0.w == s.w
    ensures CallOn(s, call).0.closeNow ==> s.closeNow || call.Abort? || call.NoStreamsLeft?
  {
    hide Announces, TripDone;
  }

  /** Over every run: shutdowns are in good order, and no connection closes at once without a cause. */
  lemma {:induction false} RunOrderly(s: Snap, calls: seq<UserCall>)
    requires Orderly(s) && GoAwayOk(s) && DriveOn(s, calls).1
    ensures RunKeeps(s, DriveOn(s, calls).0, calls)
  {
    hide Orderly, Advances, WhyClosed, GoAwayOk, PollOn, CallOn;
    RunPromises(s, calls);
    if calls == [] {
      SameWhy(s, s);
    } else {
      var n := |calls| - 1;
      var (s1, ok) := DriveOn(s, calls[..n]);
      RunOrderly(s, calls[..n]);
      RunPromises(s, calls[..n]);
      assert calls == calls[..n] + [calls[n]];
      AskedBefore(calls[..n], calls[n]);
      CallCloses(s, s1, calls[n]);
    }
  }

  /** One more call. */
  lemma CallCloses(s: Snap, s1: Snap, call: UserCall)
    requires Orderly(s1) && GoAwayOk(s1) && Advances(s.w, s1.w) && CallOn(s1, call).1
    ensures var s' := CallOn(s1, call).0;
            && Orderly(s') && Advances(s.w, s'.w)
            && (WhyClosed(s, s1) ==> WhyClosed(s, s') || call.Abort? || call.NoStreamsLeft?)
  {
    hide Orderly, Advances, WhyClosed, GoAwayOk, PollOn, Reads;
    if call.Polling? {
      PollOrderly(s1);
      var es := PollReads(s1);
      AdvancesTwice(s.w, s1.w, PollOn(s1).0.w);
      if WhyClosed(s, s1) {
        WhyAfter(s, s1, PollOn(s1).0, es);
      }
    } else {
      CallOrderly(s1, call);
      SameCause(s, s1, CallOn(s1, call).0);
    }
  }

  lemma SameCause(s: Snap, s1: Snap, s': Snap)
    requires Advances(s.w, s1.w) && s'.w == s1.w && s'.error == s1.error
    ensures WhyClosed(s, s1) && (s'.closeNow ==> s1.closeNow || s.closeNow) ==> WhyClosed(s, s')
  {
  }

  /** Over every run the GOAWAY remembered is the last one that was taken. */
  lemma {:induction false} RunReads(s: Snap, calls: seq<UserCall>) returns (es: seq<Event>)
    ensures Reads(s, DriveOn(s, calls).0, es)
  {
    hide Reads, PollOn;
    if calls == [] {
      ReadsNone(s, s);
      es := [];
    } else {
      var n := |calls| - 1;
      es := RunReads(s, calls[..n]);
      var (s1, ok) := DriveOn(s, calls[..n]);
      if ok {
        var more := [];
        if calls[n].Polling? {
          more := PollReads(s1);
        } else {
          ReadsNone(s1, CallOn(s1, calls[n]).0);
        }
        ReadsTwice(s, s1, CallOn(s1, calls[n]).0, es, more);
        es := es + more;
      }
    }
  }

  /** A run keeps shutdowns in good order, and closes nothing without a cause. */
  ghost predicate RunKeeps(s: Snap, s': Snap, calls: seq<UserCall>) {
    && Orderly(s') && Advances(s.w, s'.w)
    && (WhyClosed(s, s') || AsksToClose(calls))
  }
}

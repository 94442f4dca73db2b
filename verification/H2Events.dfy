/** What the peer's events lead to: the converse of the causes in `H2Promise`. */
module H2Events {
  import opened Wrappers
  import opened Supply
  import opened H2Codec
  import opened H2GoAway
  import opened H2Loop
  import opened H2Promise

  /** How an event must end the inner loop, whatever the connection has done before. */
  function MustEnd(e: Event): (r: Option<Poll2Result>) {
    match e
    case Nothing => Some(Pending)
    case Eof => Some(Finished)
    case Broken(fault) => Some(Failed(fault))
    case Arrived(frame, fault, _) =>
      if (frame.StreamIn? || frame.GoAwayIn?) && fault.Some? then Some(Failed(fault.value)) else None
  }

  /** The GOAWAY last taken without a fault. */
  function LastGoAway(error: Option<Notice>, es: seq<Event>): (r: Option<Notice>) {
    if es == [] then error
    else
      var e := es[|es| - 1];
      if e.Arrived? && e.frame.GoAwayIn? && e.fault.None? then Some(Notice(e.frame.id, e.frame.reason))
      else LastGoAway(error, es[..|es| - 1])
  }

  lemma {:induction false} LastTwice(error: Option<Notice>, a: seq<Event>, b: seq<Event>)
    ensures LastGoAway(error, a + b) == LastGoAway(LastGoAway(error, a), b)
    decreases |b|
  {
    if b == [] {
      assert a + b == a;
    } else {
      assert (a + b)[..|a + b| - 1] == a + b[..|b| - 1];
      LastTwice(error, a, b[..|b| - 1]);
    }
  }

  /** The events read between two moments, and the GOAWAY remembered, which is the last one among them. */
  ghost predicate Reads(s: Snap, s': Snap, es: seq<Event>) {
    && Goes(s.w.incoming, s'.w.incoming) && es == Given(s.w.incoming, s'.w.incoming)
    && s'.error == LastGoAway(s.error, es)
  }

  lemma ReadsNone(s: Snap, s': Snap)
    requires s'.w.incoming == s.w.incoming && s'.error == s.error
    ensures Reads(s, s', [])
  {
  }

  lemma ReadsTwice(s: Snap, s1: Snap, s': Snap, a: seq<Event>, b: seq<Event>)
    requires Reads(s, s1, a) && Reads(s1, s', b)
    ensures Reads(s, s', a + b)
  {
    hide Given, Goes;
    GoesTwice(s.w.incoming, s1.w.incoming, s'.w.incoming);
    LastTwice(s.error, a, b);
  }

  // ----- a round -----

  /** No event among these ends the loop otherwise than this. */
  ghost predicate Obeys(es: seq<Event>, r: Option<Poll2Result>) {
    forall e :: e in es && MustEnd(e).Some? ==> r == MustEnd(e)
  }

  lemma ReadEvents(s: Snap) returns (es: seq<Event>)
    ensures Reads(s, ReadOn(s).0, es) && Obeys(es, ReadOn(s).1)
  {
    hide Given, Goes, RecvOn;
    SpendGoes(s.w.incoming);
    es := Given(s.w.incoming, Spend(s.w.incoming));
    var e := NextEvent(s.w.incoming);
    if e.Arrived? {
      FrameLeads(Hear(s), e);
    }
    assert ReadOn(s).0.w.incoming == Spend(s.w.incoming);
    if es != [] {
      assert es == [e] && [e][..0] == [];
      assert ReadOn(s).0.error == LastGoAway(s.error, [e]);
    } else {
      assert ReadOn(s).0.error == s.error;
    }
  }

  /** What taking in a frame remembers, and the fault it ends in if it must. */
  lemma FrameLeads(s: Snap, e: Event)
    requires e.Arrived?
    ensures var (s', fault) := RecvOn(s, e.frame, e.fault, e.settingsFault);
            && s'.w == s.w && s'.error == LastGoAway(s.error, [e])
            && (MustEnd(e).Some? ==> fault.Some? && MustEnd(e) == Some(Failed(fault.value)))
  {
    assert [e][..0] == [];
  }

  lemma GoAwayReadsNone(s: Snap)
    ensures GoAwayOn(s).0.w.incoming == s.w.incoming && GoAwayOn(s).0.error == s.error
  {
  }

  lemma RoundEvents(s: Snap) returns (es: seq<Event>)
    ensures Reads(s, RoundOn(s).0, es) && Obeys(es, RoundOn(s).1)
  {
    hide GoAwayOn, ReadyOn, ReadOn, Reads;
    GoAwayReadsNone(s);
    var (s1, p) := GoAwayOn(s);
    ReadySends(s1);
    var (s2, ready) := ReadyOn(s1);
    ReadsNone(s, s1);
    ReadsNone(s, s2);
    es := [];
    if !p.Broke? && !p.Blocked? && !(p.Sent? && ShouldClose(s1)) && ready.Done? {
      es := ReadEvents(s2);
      ReadsTwice(s, s2, ReadOn(s2).0, [], es);
      assert [] + es == es;
    }
  }

  lemma {:induction false} Poll2Events(s: Snap) returns (es: seq<Event>)
    ensures Reads(s, Poll2On(s).0, es) && Obeys(es, Some(Poll2On(s).1))
    decreases Left(s)
  {
    hide RoundOn, Reads;
    es := RoundEvents(s);
    var (s1, r) := RoundOn(s);
    if r.None? {
      var more := Poll2Events(s1);
      ReadsTwice(s, s1, Poll2On(s1).0, es, more);
      es := es + more;
    }
  }

  // ----- a poll -----

  /** The connection is closing for this reason. */
  ghost predicate Reported(s: Snap, reason: nat) {
    Dead(s) && s.goingAway.Some? && s.goingAway.value.reason == reason
  }

  /** What these events have led to. */
  ghost predicate Effects(es: seq<Event>, s: Snap, failed: bool) {
    && (forall e, reason :: e in es && MustEnd(e) == Some(Failed(ConnFault(reason))) ==> Reported(s, reason))
    && (forall e :: e in es && MustEnd(e) == Some(Finished) ==> !s.state.Open?)
    && (forall e :: e in es && MustEnd(e) == Some(Failed(IoFault)) ==> failed)
  }

  lemma OpenEvents(s: Snap) returns (es: seq<Event>)
    requires s.state.Open?
    ensures Reads(s, OpenOn(s).0, es) && Effects(es, OpenOn(s).0, OpenOn(s).1 == Some(false))
  {
    hide Poll2On, Reads;
    es := Poll2Events(s);
    var (s1, r) := Poll2On(s);
    var s' := OpenOn(s).0;
    ReadsNone(s1, s');
    ReadsTwice(s, s1, s', es, []);
    assert es + [] == es;
  }

  /** The idle close that takes the place of an announcement the socket would not take. */
  ghost predicate Overwritten(s: Snap, s': Snap)
    requires Advances(s.w, s'.w)
  {
    Refusal(s.w, s'.w) && s'.error.Some? && Reported(s', NO_ERROR)
  }

  /** One step of a connection that must close keeps its reason, unless an idle close takes its place. */
  lemma OpenKeepsReason(s: Snap, reason: nat)
    requires GoAwayOk(s) && s.state.Open? && Reported(s, reason)
    ensures var s' := OpenOn(s).0;
            Advances(s.w, s'.w) && (Reported(s', reason) || Overwritten(s, s'))
  {
    hide Advances, Refusal, Poll2On, HandleOn;
    OpenWorld(s);
    ClosesInOne(s);
    Poll2World(s);
    var (s1, r) := Poll2On(s);
    if r.Pending? {
      AskWorld(s1);
      AdvancesTwice(s.w, s1.w, Ask(s1).w);
    } else {
      HandleKeepsReason(s1, r);
    }
  }

  lemma HandleKeepsReason(s: Snap, r: Poll2Result)
    requires !r.Pending? && s.closeNow && s.goingAway.Some?
    requires r.Failed? && !r.fault.IoFault? ==> r.fault == ConnFault(s.goingAway.value.reason)
    ensures var s' := HandleOn(s, r).0; s'.goingAway == s.goingAway && s'.closeNow && s'.error == s.error
  {
  }

  lemma {:induction false} PollKeepsReason(s: Snap, reason: nat)
    requires GoAwayOk(s) && Reported(s, reason)
    ensures var s' := PollOn(s).0;
            Advances(s.w, s'.w) && (Reported(s', reason) || Overwritten(s, s'))
    decreases Left(s), Rank(s.state)
  {
    hide Advances, Refusal, OpenOn, GoAwayOk;
    match s.state
    case Closed(_) =>
      AdvancesSame(s.w);
    case Closing(_) =>
      ClosingWorld(s);
      ClosingKeeps(s);
    case Open =>
      OpenWorld(s);
      OpenShrinks(s);
      OpenKeepsReason(s, reason);
      var (s1, r) := OpenOn(s);
      if r.None? {
        var kept := s1.goingAway.value.reason;
        PollKeepsReason(s1, kept);
        PollPromises(s1);
        var s' := PollOn(s1).0;
        AdvancesTwice(s.w, s1.w, s'.w);
        var es := PollReads(s1);
        ErrorStays(s1, s', es);
      }
  }

  lemma ClosingKeeps(s: Snap)
    requires s.state.Closing?
    ensures PollOn(s).0.goingAway == s.goingAway && PollOn(s).0.w.incoming == s.w.incoming
    ensures PollOn(s).0.error == s.error && !PollOn(s).0.state.Open?
  {
    assert PollOn(Ask(s).(state := Closed(s.state.reason))) == (Ask(s).(state := Closed(s.state.reason)), true);
  }

  lemma {:induction false} ErrorStays(s: Snap, s': Snap, es: seq<Event>)
    requires Reads(s, s', es)
    ensures s.error.Some? ==> s'.error.Some?
  {
    LastSome(s.error, es);
  }

  lemma {:induction false} LastSome(error: Option<Notice>, es: seq<Event>)
    ensures error.Some? ==> LastGoAway(error, es).Some?
  {
    if es != [] {
      LastSome(error, es[..|es| - 1]);
    }
  }

  /** The events a poll reads, and the GOAWAY it remembers. */
  lemma {:induction false} PollReads(s: Snap) returns (es: seq<Event>)
    ensures Reads(s, PollOn(s).0, es)
    decreases Left(s), Rank(s.state)
  {
    hide OpenOn, Reads;
    match s.state
    case Closed(_) =>
      ReadsNone(s, s);
      es := [];
    case Closing(_) =>
      ClosingKeeps(s);
      ReadsNone(s, PollOn(s).0);
      es := [];
    case Open =>
      OpenShrinks(s);
      es := OpenEvents(s);
      var (s1, r) := OpenOn(s);
      if r.None? {
        var more := PollReads(s1);
        ReadsTwice(s, s1, PollOn(s1).0, es, more);
        es := es + more;
      }
  }

  /** What every event that a poll has read leads to. */
  ghost predicate Answers(s: Snap, s': Snap, es: seq<Event>, ok: bool)
    requires Advances(s.w, s'.w)
  {
    && (forall e, reason :: e in es && MustEnd(e) == Some(Failed(ConnFault(reason))) ==>
          Reported(s', reason) || Overwritten(s, s'))
    && (forall e :: e in es && MustEnd(e) == Some(Finished) ==> !s'.state.Open?)
    && (forall e :: e in es && MustEnd(e) == Some(Failed(IoFault)) ==> !ok)
  }

  /** A step that goes on, and what the rest of the poll makes of its events. */
  lemma AnswersAfter(s: Snap, s1: Snap, a: seq<Event>, b: seq<Event>)
    requires GoAwayOk(s1) && Advances(s.w, s1.w) && Effects(a, s1, false)
    requires Advances(s1.w, PollOn(s1).0.w) && Answers(s1, PollOn(s1).0, b, PollOn(s1).1)
    ensures Advances(s.w, PollOn(s1).0.w) && Answers(s, PollOn(s1).0, a + b, PollOn(s1).1)
  {
    hide Advances, Refusal, MustEnd, PollOn, GoAwayOk, Reported;
    var s', ok := PollOn(s1).0, PollOn(s1).1;
    AdvancesTwice(s.w, s1.w, s'.w);
    forall e, reason | e in a + b && MustEnd(e) == Some(Failed(ConnFault(reason)))
      ensures Reported(s', reason) || Overwritten(s, s')
    {
      if e in a {
        PollKeepsReason(s1, reason);
      }
    }
    PollPromises(s1);
    StaysShut(s1, s', ok);
  }

  lemma StaysShut(s: Snap, s': Snap, ok: bool)
    requires Promise(s, s', ok)
    ensures !s.state.Open? ==> !s'.state.Open?
  {
  }

  /**
   Every event a poll reads has its effect: a connection error is announced with its reason and the connection
   closes, the end of the stream closes it, an I/O error fails the poll, and the last GOAWAY is remembered.
   Only an idle close, after the socket has refused, may take the place of an announcement.
   */
  lemma {:induction false} PollAnswers(s: Snap) returns (es: seq<Event>)
    requires GoAwayOk(s)
    ensures Reads(s, PollOn(s).0, es) && Advances(s.w, PollOn(s).0.w)
    ensures Answers(s, PollOn(s).0, es, PollOn(s).1)
    decreases Left(s), Rank(s.state)
  {
    hide Advances, Refusal, OpenOn, Reads, MustEnd, GoAwayOk, Reported;
    PollPromises(s);
    match s.state
    case Closed(_) =>
      ReadsNone(s, s);
      es := [];
    case Closing(_) =>
      ClosingKeeps(s);
      ReadsNone(s, PollOn(s).0);
      es := [];
    case Open =>
      OpenShrinks(s);
      OpenWorld(s);
      es := OpenEvents(s);
      var (s1, r) := OpenOn(s);
      if r.None? {
        var more := PollAnswers(s1);
        ReadsTwice(s, s1, PollOn(s1).0, es, more);
        AnswersAfter(s, s1, es, more);
        es := es + more;
      }
  }

  /** The events read are all answered. */
  ghost predicate Answered(s: Snap, s': Snap, ok: bool) {
    && Advances(s.w, s'.w)
    && var es := Given(s.w.incoming, s'.w.incoming);
       s'.error == LastGoAway(s.error, es) && Answers(s, s', es, ok)
  }

  lemma PollAnswered(s: Snap)
    requires GoAwayOk(s)
    ensures Answered(s, PollOn(s).0, PollOn(s).1)
  {
    hide PollOn, Answers, GoAwayOk;
    var es := PollAnswers(s);
  }

  // ----- the announcement that is replaced -----

  /**
   Exactly when one step of a connection that must close changes what it announces: its GOAWAY is refused, the
   stream layer is done and has no streams left, and the peer has said GOAWAY.
   */
  lemma OverwrittenIff(s: Snap)
    requires GoAwayOk(s) && s.state.Open? && s.closeNow
    ensures OpenOn(s).0.goingAway != s.goingAway <==>
              && s.pending.Some? && Answer(s).ready.NotReady?
              && Answer(Ask(s)).ready.Ready? && !Answer(Ask(s)).hasStreams
              && s.error.Some? && s.goingAway != Some(Notice(s.lastId, NO_ERROR))
  {
    hide ReadyOn, ReadOn;
    GoAwayKeeps(s);
    var (s1, p) := GoAwayOn(s);
    assert p.Sent? ==> ShouldClose(s1);
    assert p.Sent? ==> Poll2On(s) == (s1, if s1.isUserInitiated then Finished else Failed(ConnFault(p.reason)));
    assert p.Broke? ==> Poll2On(s) == (s1, Failed(IoFault));
    assert p.Blocked? ==> Poll2On(s) == (s1, Pending) && s1 == Ask(s);
  }

  /** An announcement that is replaced: of a protocol error, refused by the socket, by one without an error. */
  lemma AnnouncementReplaced(s: Snap)
    requires s.state.Open? && s.closeNow && s.goingAway == s.pending == Some(Notice(s.lastId, PROTOCOL_ERROR))
    requires s.error.Some?
    requires s.w.script.left == [Turn(NotReady, None, false, false), Turn(Ready, None, false, false)]
    ensures OpenOn(s).0.goingAway == Some(Notice(s.lastId, NO_ERROR))
  {
    hide ReadyOn, ReadOn;
    OverwrittenIff(s);
    assert Poll2On(s) == (Ask(s), Pending);
  }
}

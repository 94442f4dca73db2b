/** What the poll loop promises, over every run: causes for every end, and nothing owed when it waits for the peer. */
module H2Promise {
  import opened Wrappers
  import opened Supply
  import opened H2Codec
  import opened H2Loop
  import S = H2Settings

  // ----- the parts of a round -----

  lemma GoAwayWorld(s: Snap)
    ensures var (s', p) := GoAwayOn(s);
            && Advances(s.w, s'.w) && !Silence(s.w, s'.w) && (Refusal(s.w, s'.w) <==> p.Blocked?)
            && (p.Broke? ==> FaultSeen(s.w, s'.w, IoFault)) && 0 <= Asked(s.w, s'.w) <= 1 && Heard(s.w, s'.w) == 0
  {
    hide Advances, Refusal, Silence, FaultSeen, Stalled;
    AdvancesSame(s.w);
    NotStalled(s.w, s.w);
    assert s.w.buffered + [] == s.w.buffered;
    TurnUsed(s.w, []);
    if s.pending.Some? {
      TurnUsed(s.w, [GoAwayOut(s.pending.value.id, s.pending.value.reason)]);
      assert Answer(s).ready.IoFailure? ==> TurnRaises(Next(s.w.script), IoFault);
    }
  }

  lemma NotStalled(w: World, w': World)
    requires Advances(w, w')
    ensures Stalled(w, w') <==> Refusal(w, w') || Silence(w, w')
  {
  }

  lemma PongWorld(s: Snap)
    ensures var (s', r) := PongOn(s);
            && Advances(s.w, s'.w) && !Silence(s.w, s'.w) && (Refusal(s.w, s'.w) <==> r.NotReady?)
            && (r.IoFailure? ==> FaultSeen(s.w, s'.w, IoFault)) && 0 <= Asked(s.w, s'.w) <= 1 && Heard(s.w, s'.w) == 0
  {
    hide Advances, Refusal, Silence, FaultSeen, Stalled;
    AdvancesSame(s.w);
    NotStalled(s.w, s.w);
    assert s.w.buffered + [] == s.w.buffered;
    TurnUsed(s.w, []);
    if s.pong.Some? {
      TurnUsed(s.w, [PongOut(s.pong.value)]);
      assert Answer(s).ready.IoFailure? ==> TurnRaises(Next(s.w.script), IoFault);
    }
  }

  lemma PingWorld(s: Snap)
    ensures var (s', r) := PingOn(s);
            && Advances(s.w, s'.w) && !Silence(s.w, s'.w) && (r.NotReady? ==> Refusal(s.w, s'.w))
            && (r.IoFailure? ==> FaultSeen(s.w, s'.w, IoFault)) && 0 <= Asked(s.w, s'.w) <= 1 && Heard(s.w, s'.w) == 0
  {
    hide Advances, Refusal, Silence, FaultSeen, Stalled;
    AdvancesSame(s.w);
    NotStalled(s.w, s.w);
    assert s.w.buffered + [] == s.w.buffered;
    TurnUsed(s.w, []);
    TurnUsed(s.w, [PingOut(USER)]);
    if s.ping.Some? {
      TurnUsed(s.w, [PingOut(s.ping.value.payload)]);
    }
    assert Answer(s).ready.IoFailure? ==> TurnRaises(Next(s.w.script), IoFault);
  }

  function WithWorld(w: World, x: S.Exchange): (r: World) {
    w.(script := x.script, buffered := x.out)
  }

  lemma AcknowledgeWorld(w: World, x: S.Exchange)
    requires x.script == w.script && x.out == w.buffered
    ensures var (y, r) := S.Acknowledge(x);
            var w' := WithWorld(w, y);
            && Advances(w, w') && !Silence(w, w') && (r.Blocked? ==> Refusal(w, w'))
            && (r.Broke? ==> FaultSeen(w, w', IoFault)) && (r.Faulted? ==> FaultSeen(w, w', ConnFault(r.reason)))
            && 0 <= Asked(w, w') <= 1
  {
    hide Advances, Refusal, Silence, FaultSeen, Stalled;
    AdvancesSame(w);
    NotStalled(w, w);
    assert w.buffered + [] == w.buffered;
    TurnUsed(w, []);
    TurnUsed(w, [SettingsAck]);
    var t := Next(w.script);
    assert t.ready.IoFailure? ==> TurnRaises(t, IoFault);
    assert t.settingsFault.Some? ==> TurnRaises(t, ConnFault(t.settingsFault.value));
  }

  lemma SendOwnWorld(w: World, x: S.Exchange)
    requires x.script == w.script && x.out == w.buffered
    ensures var (y, r) := S.SendOwn(x);
            var w' := WithWorld(w, y);
            && Advances(w, w') && !Silence(w, w') && (r.Blocked? ==> Refusal(w, w'))
            && (r.Broke? ==> FaultSeen(w, w', IoFault)) && !r.Faulted? && 0 <= Asked(w, w') <= 1
  {
    hide Advances, Refusal, Silence, FaultSeen, Stalled;
    AdvancesSame(w);
    NotStalled(w, w);
    assert w.buffered + [] == w.buffered;
    TurnUsed(w, []);
    if x.local.ToSend? {
      TurnUsed(w, [SettingsOut(x.local.params)]);
      assert Next(w.script).ready.IoFailure? ==> TurnRaises(Next(w.script), IoFault);
    }
  }

  lemma SettingsWorld(s: Snap)
    ensures var (s', r) := SettingsOn(s);
            && Advances(s.w, s'.w) && !Silence(s.w, s'.w) && (r.Blocked? ==> Refusal(s.w, s'.w))
            && (r.Broke? ==> FaultSeen(s.w, s'.w, IoFault))
            && (r.Faulted? ==> FaultSeen(s.w, s'.w, ConnFault(r.reason)))
            && 0 <= Asked(s.w, s'.w) <= 2 && Heard(s.w, s'.w) == 0
  {
    hide Advances, Refusal, Silence, FaultSeen, S.Acknowledge, S.SendOwn;
    var x := ExchangeOf(s);
    AcknowledgeWorld(s.w, x);
    var (y, r) := S.Acknowledge(x);
    if r.Done? {
      var w' := WithWorld(s.w, y);
      SendOwnWorld(w', y);
      AdvancesTwice(s.w, w', SettingsOn(s).0.w);
    }
  }

  /** Nothing is owed but refusals. */
  ghost predicate Quiet(s: Snap) {
    s.pong.None? && s.remote.None? && !s.local.ToSend? && (s.ping.Some? ==> s.ping.value.sent)
  }

  /** The last question of a round. */
  lemma AskWorld(s: Snap)
    ensures var s' := Ask(s);
            && Advances(s.w, s'.w) && !Silence(s.w, s'.w) && (Refusal(s.w, s'.w) <==> Answer(s).ready.NotReady?)
            && (Answer(s).ready.IoFailure? ==> FaultSeen(s.w, s'.w, IoFault))
            && Asked(s.w, s'.w) == 1 && Heard(s.w, s'.w) == 0
  {
    hide Advances, Refusal, Silence, FaultSeen;
    assert s.w.buffered + [] == s.w.buffered;
    TurnUsed(s.w, []);
    assert Answer(s).ready.IoFailure? ==> TurnRaises(Next(s.w.script), IoFault);
  }

  lemma ReadyWorld(s: Snap)
    ensures var (s', r) := ReadyOn(s);
            && Advances(s.w, s'.w) && !Silence(s.w, s'.w) && (r.Blocked? ==> Refusal(s.w, s'.w))
            && (r.Broke? ==> FaultSeen(s.w, s'.w, IoFault))
            && (r.Faulted? ==> FaultSeen(s.w, s'.w, ConnFault(r.reason)))
            && 0 <= Asked(s.w, s'.w) <= 5 && Heard(s.w, s'.w) == 0 && (r.Done? ==> Asked(s.w, s'.w) >= 1)
  {
    hide Advances, Refusal, Silence, FaultSeen, PongOn, PingOn, SettingsOn, Ask;
    PongWorld(s);
    var (s1, pong) := PongOn(s);
    if pong.Ready? {
      PingWorld(s1);
      var (s2, ping) := PingOn(s1);
      AdvancesTwice(s.w, s1.w, s2.w);
      if ping.Ready? {
        SettingsWorld(s2);
        var (s3, settings) := SettingsOn(s2);
        AdvancesTwice(s.w, s2.w, s3.w);
        if settings.Done? {
          AskWorld(s3);
          AdvancesTwice(s.w, s3.w, Ask(s3).w);
        }
      }
    }
  }

  /** Sending what is owed decides nothing and reads nothing. */
  ghost predicate OnlySends(s: Snap, s': Snap) {
    && s'.state == s.state && s'.error == s.error && s'.closeNow == s.closeNow && s'.goingAway == s.goingAway
    && s'.isUserInitiated == s.isUserInitiated && s'.pending == s.pending
    && s'.lastId == s.lastId && s'.maxId == s.maxId
    && s'.w.log == s.w.log && s'.w.incoming == s.w.incoming
  }

  lemma PongSends(s: Snap)
    ensures var (s', r) := PongOn(s);
            OnlySends(s, s') && (r.Ready? ==> s'.pong.None?)
  {
  }

  lemma PingSends(s: Snap)
    ensures var (s', r) := PingOn(s);
            OnlySends(s, s') && s'.pong == s.pong && (r.Ready? ==> (s'.ping.Some? ==> s'.ping.value.sent))
  {
  }

  lemma SettingsSends(s: Snap)
    ensures var (s', r) := SettingsOn(s);
            && OnlySends(s, s') && s'.pong == s.pong && s'.ping == s.ping
            && (r.Done? ==> s'.remote.None? && !s'.local.ToSend?)
  {
  }

  /** When everything has gone out nothing is owed. */
  lemma ReadySends(s: Snap)
    ensures var (s', r) := ReadyOn(s);
            OnlySends(s, s') && (r.Done? ==> Quiet(s'))
  {
    hide PongOn, PingOn, SettingsOn;
    PongSends(s);
    var s1 := PongOn(s).0;
    PingSends(s1);
    SettingsSends(PingOn(s1).0);
  }

  /** Reading: only the peer's silence makes it wait, and then nothing has changed. */
  lemma ReadWorld(s: Snap)
    ensures var (s', r) := ReadOn(s);
            && Advances(s.w, s'.w) && !Refusal(s.w, s'.w) && Asked(s.w, s'.w) == 0
            && (Silence(s.w, s'.w) <==> r == Some(Pending))
            && (r == Some(Pending) ==> HeardOut(s.w, s'.w) && s'.(w := s.w) == s)
            && (r == Some(Finished) ==> EndSeen(s.w, s'.w))
            && (r.Some? && r.value.Failed? ==> FaultSeen(s.w, s'.w, r.value.fault))
            && 0 <= Heard(s.w, s'.w) <= 1 && (r != Some(Pending) ==> Heard(s.w, s'.w) == 1)
  {
    hide Advances, Refusal, Silence, FaultSeen, EndSeen, HeardOut;
    EventUsed(s.w);
    var w := s.w;
    assert Hear(s).w == World(w.script, Spend(w.incoming), w.buffered, w.log + FrameOf(NextEvent(w.incoming)));
    var (s', r) := ReadOn(s);
    if r.Some? && r.value.Failed? {
      assert EventRaises(NextEvent(s.w.incoming), r.value.fault);
    }
  }

  // ----- a round -----

  /** What is pending is what was decided, and closing at once implies a decision. */
  ghost predicate GoAwayOk(s: Snap) {
    (s.pending.Some? ==> s.goingAway == s.pending) && (s.closeNow ==> s.goingAway.Some?)
  }

  /** Nothing waits to be sent. */
  ghost predicate Settled(s: Snap) {
    Quiet(s) && s.pending.None?
  }

  /** The fault with which a connection closes by itself, its last GOAWAY being out. */
  ghost predicate Announced(s: Snap, f: Fault) {
    ShouldClose(s) && s.goingAway.Some? && f == ConnFault(s.goingAway.value.reason)
  }

  /** Every end has a cause: the peer hung up or something failed, unless the connection closes by itself. */
  ghost predicate Explained(s: Snap, s': Snap, r: Poll2Result)
    requires Advances(s.w, s'.w)
  {
    && (r.Finished? ==> EndSeen(s.w, s'.w) || (ShouldClose(s') && s'.isUserInitiated))
    && (r.Failed? ==> FaultSeen(s.w, s'.w, r.fault) || Announced(s', r.fault))
    && (r.Pending? ==> Refusal(s.w, s'.w) || (Settled(s') && HeardOut(s.w, s'.w)))
    && (!r.Pending? ==> !Silence(s.w, s'.w))
  }

  /** What no round changes, and that nothing is taken in once the connection must close. */
  ghost predicate Keeps(s: Snap, s': Snap) {
    && s'.state == s.state && s'.closeNow == s.closeNow && s'.isUserInitiated == s.isUserInitiated
    && (s.closeNow ==> s'.w.log == s.w.log && s'.goingAway == s.goingAway)
    && (s.goingAway.Some? ==> s'.goingAway.Some?)
    && (GoAwayOk(s) ==> GoAwayOk(s'))
  }

  lemma GoAwayKeeps(s: Snap)
    ensures var (s', p) := GoAwayOn(s);
            && Keeps(s, s') && (p.Sent? || p.Idle? ==> s'.pending.None?)
            && (GoAwayOk(s) && p.Idle? ==> !s'.closeNow)
            && (GoAwayOk(s) && p.Sent? ==> s'.goingAway.Some? && p.reason == s'.goingAway.value.reason)
  {
  }

  lemma ReadKeeps(s: Snap)
    requires !s.closeNow
    ensures Keeps(s, ReadOn(s).0)
  {
  }

  lemma RoundKeeps(s: Snap)
    requires GoAwayOk(s)
    ensures Keeps(s, RoundOn(s).0) && (s.closeNow ==> RoundOn(s).1.Some?)
  {
    hide GoAwayOn, ReadyOn, ReadOn;
    GoAwayKeeps(s);
    var s1 := GoAwayOn(s).0;
    ReadySends(s1);
    var s2 := ReadyOn(s1).0;
    if !s2.closeNow {
      ReadKeeps(s2);
    }
  }

  lemma RoundWorld(s: Snap)
    requires GoAwayOk(s)
    ensures var (s', r) := RoundOn(s);
            && Advances(s.w, s'.w) && (r.Some? ==> Explained(s, s', r.value))
            && 0 <= Asked(s.w, s'.w) <= 6 && 0 <= Heard(s.w, s'.w) <= 1
            && (r.None? ==> !Silence(s.w, s'.w) && Heard(s.w, s'.w) == 1)
            && (r == Some(Failed(StreamFault)) ==> Heard(s.w, s'.w) == 1)
  {
    hide Advances, Refusal, Silence, FaultSeen, EndSeen, HeardOut, GoAwayOn, ReadyOn, ReadOn, Quiet;
    GoAwayWorld(s);
    GoAwayKeeps(s);
    var (s1, p) := GoAwayOn(s);
    if !p.Broke? && !p.Blocked? && !(p.Sent? && ShouldClose(s1)) {
      ReadyWorld(s1);
      ReadySends(s1);
      var (s2, ready) := ReadyOn(s1);
      AdvancesTwice(s.w, s1.w, s2.w);
      if ready.Done? {
        ReadWorld(s2);
        var (s3, r) := ReadOn(s2);
        AdvancesTwice(s.w, s2.w, s3.w);
        HeardOutTwice(s.w, s2.w, s3.w);
        if r == Some(Pending) {
          SameQuiet(s2, s3);
        }
      }
    }
  }

  lemma SameQuiet(s: Snap, s': Snap)
    requires Quiet(s) && s'.(w := s.w) == s
    ensures Quiet(s')
  {
  }

  // ----- the inner loop -----

  lemma ExplainedAfter(s: Snap, s1: Snap, s': Snap, r: Poll2Result)
    requires Advances(s.w, s1.w) && !Silence(s.w, s1.w) && Advances(s1.w, s'.w) && Explained(s1, s', r)
    ensures Advances(s.w, s'.w) && Explained(s, s', r)
  {
    hide Advances, Refusal, Silence, FaultSeen, EndSeen, HeardOut, Quiet;
    AdvancesTwice(s.w, s1.w, s'.w);
    HeardOutTwice(s.w, s1.w, s'.w);
  }

  /**
   The inner loop waits only because the socket refused or because all that came was read and nothing is
   owed; it asks a bounded number of questions for each event.
   */
  lemma {:induction false} Poll2World(s: Snap)
    requires GoAwayOk(s)
    ensures var (s', r) := Poll2On(s);
            && Advances(s.w, s'.w) && Explained(s, s', r) && Keeps(s, s')
            && 0 <= Heard(s.w, s'.w) && 0 <= Asked(s.w, s'.w) <= 6 * (Heard(s.w, s'.w) + 1)
            && (r == Failed(StreamFault) ==> Asked(s.w, s'.w) <= 6 * Heard(s.w, s'.w))
    decreases Left(s)
  {
    hide Advances, Silence, Explained, RoundOn;
    RoundWorld(s);
    RoundKeeps(s);
    var (s1, r) := RoundOn(s);
    if r.None? {
      Poll2World(s1);
      ExplainedAfter(s, s1, Poll2On(s1).0, Poll2On(s1).1);
    }
  }

  /** A connection that must close at once does so in one round, unless the socket refuses or fails. */
  lemma ClosesInOne(s: Snap)
    requires GoAwayOk(s) && s.closeNow
    ensures var (s', r) := Poll2On(s);
            && Advances(s.w, s'.w)
            && (r.Pending? ==> Refusal(s.w, s'.w))
            && (r.Failed? && !r.fault.IoFault? ==>
                  s'.goingAway.Some? && r.fault == ConnFault(s'.goingAway.value.reason))
  {
    hide Advances, Refusal, GoAwayOn, ReadyOn, ReadOn;
    GoAwayWorld(s);
    GoAwayKeeps(s);
    var (s1, p) := GoAwayOn(s);
    assert p.Sent? ==> ShouldClose(s1);
  }

  // ----- a poll -----

  predicate Dead(s: Snap) {
    s.closeNow || !s.state.Open?
  }

  /** The reason for which a connection closes at once. */
  function CloseReason(s: Snap): (r: Option<nat>) {
    if s.closeNow && s.goingAway.Some? then Some(s.goingAway.value.reason) else None
  }

  /** A connection closes at once because it is idle, for a fault it has seen, or for the reason it had before. */
  ghost predicate HasCause(s: Snap, s': Snap)
    requires Advances(s.w, s'.w)
  {
    CloseReason(s').Some? ==>
      || CloseReason(s') == Some(NO_ERROR)
      || FaultSeen(s.w, s'.w, ConnFault(CloseReason(s').value))
      || CloseReason(s') == CloseReason(s)
  }

  /** A connection leaves `Open` when its last GOAWAY is out, the peer hangs up, or a fault is the one announced. */
  ghost predicate MayClose(s: Snap, s': Snap)
    requires Advances(s.w, s'.w) && !s'.state.Open?
  {
    ShouldClose(s') || EndSeen(s.w, s'.w) || FaultSeen(s.w, s'.w, ConnFault(s'.state.reason))
  }

  /** The states that can follow one another; nothing happens to a connection that is closed. */
  ghost predicate Follows(s: Snap, s': Snap)
    requires Advances(s.w, s'.w)
  {
    match s.state
    case Open => s'.state.Open? || MayClose(s, s')
    case Closing(reason) => s'.state == s.state || s'.state == Closed(reason)
    case Closed(_) => s' == s
  }

  /** What is decided stays decided, and a connection that is closing takes in nothing more. */
  ghost predicate Stays(s: Snap, s': Snap) {
    && (GoAwayOk(s) ==> GoAwayOk(s')) && (s.closeNow ==> s'.closeNow) && (s.goingAway.Some? ==> s'.goingAway.Some?)
    && (Dead(s) ==> Dead(s') && s'.w.log == s.w.log)
  }

  /** An open connection waits only when the socket refused, or when nothing is owed and all that came was read. */
  ghost predicate Waits(s: Snap, s': Snap)
    requires Advances(s.w, s'.w)
  {
    Refusal(s.w, s'.w) || (s'.state.Open? && Settled(s') && HeardOut(s.w, s'.w))
  }

  lemma CloseStays(s: Snap, reason: nat)
    ensures var s' := CloseOn(s, reason); Stays(s, s') && s'.closeNow && CloseReason(s') == Some(reason)
  {
  }

  /** What an outcome of the inner loop leads to. */
  lemma HandleWorld(s: Snap, s1: Snap, r: Poll2Result)
    requires GoAwayOk(s) && s.state.Open? && Advances(s.w, s1.w) && Explained(s, s1, r) && Keeps(s, s1) && !r.Pending?
    ensures var s' := HandleOn(s1, r).0;
            && Advances(s.w, s'.w) && Stays(s, s') && HasCause(s, s') && !s'.state.Closed?
            && (s'.state.Closing? ==> MayClose(s, s'))
            && (s'.state.Open? && !s'.closeNow ==> r == Failed(StreamFault) || r == Failed(IoFault))
  {
    hide Advances, Refusal, Silence, FaultSeen, EndSeen, HeardOut, Quiet;
  }

  lemma OpenWorld(s: Snap)
    requires GoAwayOk(s) && s.state.Open?
    ensures var (s', r) := OpenOn(s);
            && Advances(s.w, s'.w) && Stays(s, s') && HasCause(s, s') && !s'.state.Closed?
            && (s'.state.Closing? ==> MayClose(s, s'))
            && (r == Some(false) ==> FaultSeen(s.w, s'.w, IoFault))
            && (r == Some(true) ==> Waits(s, s'))
            && (r.None? && !s'.closeNow ==> !Silence(s.w, s'.w))
            && 0 <= Heard(s.w, s'.w) && 0 <= Asked(s.w, s'.w) <= 7 * (Heard(s.w, s'.w) + 1)
            && (r.None? && s'.state.Open? && !s'.closeNow ==> Asked(s.w, s'.w) <= 7 * Heard(s.w, s'.w))
  {
    hide Advances, Refusal, Silence, FaultSeen, EndSeen, HeardOut, Quiet, HandleOn, Poll2On;
    Poll2World(s);
    var (s1, r) := Poll2On(s);
    if r.Pending? {
      AskWorld(s1);
      var s2 := Ask(s1);
      AdvancesTwice(s.w, s1.w, s2.w);
      HeardOutTwice(s.w, s1.w, s2.w);
      SettledAsk(s1);
      CloseStays(s2, NO_ERROR);
    } else {
      HandleWorld(s, s1, r);
      HandleFits(s1, r);
    }
  }

  lemma HandleFits(s: Snap, r: Poll2Result)
    requires !r.Pending?
    ensures HandleOn(s, r).0.w == s.w && (HandleOn(s, r).1 <==> r != Failed(IoFault))
  {
  }

  lemma SettledAsk(s: Snap)
    ensures Settled(s) <==> Settled(Ask(s))
  {
  }

  /** An open connection that must close at once is closing after one step, unless the socket refuses or fails. */
  lemma OpenCloses(s: Snap)
    requires GoAwayOk(s) && s.state.Open? && s.closeNow
    ensures var (s', r) := OpenOn(s);
            Advances(s.w, s'.w) && (!Refusal(s.w, s'.w) ==> r == Some(false) || (r.None? && s'.state.Closing?))
  {
    hide Advances, Refusal, Poll2On;
    ClosesInOne(s);
    var (s1, r) := Poll2On(s);
    if r.Pending? {
      AskWorld(s1);
      AdvancesTwice(s.w, s1.w, Ask(s1).w);
    }
  }

  lemma ClosingWorld(s: Snap)
    requires s.state.Closing?
    ensures var (s', ok) := PollOn(s);
            && Advances(s.w, s'.w) && Stays(s, s') && HasCause(s, s') && Follows(s, s')
            && ShouldClose(s') == ShouldClose(s) && s'.state.reason == s.state.reason && !s'.state.Open?
            && (!ok ==> FaultSeen(s.w, s'.w, IoFault))
            && (ok && !s'.state.Closed? ==> Refusal(s.w, s'.w))
            && 0 <= Heard(s.w, s'.w) && 0 <= Asked(s.w, s'.w) <= 1
  {
    hide Advances, Refusal, FaultSeen, Silence;
    AskWorld(s);
    assert PollOn(Ask(s).(state := Closed(s.state.reason))) == (Ask(s).(state := Closed(s.state.reason)), true);
  }

  /** What every poll promises. */
  ghost predicate Promise(s: Snap, s': Snap, ok: bool) {
    && Advances(s.w, s'.w) && Stays(s, s') && HasCause(s, s') && Follows(s, s')
    && (!ok ==> FaultSeen(s.w, s'.w, IoFault))
    && (ok && !s'.state.Closed? ==> Waits(s, s'))
    && (ok && Dead(s) && !Refusal(s.w, s'.w) ==> s'.state.Closed?)
  }

  /** One step that goes on, and the rest of the poll. */
  lemma PromiseAfter(s: Snap, s1: Snap, s': Snap, ok: bool)
    requires GoAwayOk(s) && s.state.Open? && Advances(s.w, s1.w) && Stays(s, s1) && HasCause(s, s1)
    requires s1.state.Open? && Promise(s1, s', ok)
    requires s1.closeNow || !Silence(s.w, s1.w)
    requires s.closeNow ==> Refusal(s.w, s1.w)
    ensures Promise(s, s', ok)
  {
    hide Advances, Refusal, Silence, FaultSeen, EndSeen, HeardOut, Quiet, GoAwayOk;
    AdvancesTwice(s.w, s1.w, s'.w);
    HeardOutTwice(s.w, s1.w, s'.w);
  }

  lemma PromiseClosing(s: Snap, s1: Snap)
    requires GoAwayOk(s) && s.state.Open? && Advances(s.w, s1.w) && Stays(s, s1) && HasCause(s, s1)
    requires s1.state.Closing? && MayClose(s, s1)
    ensures Promise(s, PollOn(s1).0, PollOn(s1).1)
  {
    hide Advances, Refusal, Silence, FaultSeen, EndSeen, HeardOut, Quiet, GoAwayOk, PollOn;
    ClosingWorld(s1);
    AdvancesTwice(s.w, s1.w, PollOn(s1).0.w);
  }

  /**
   Every poll ends closed, or waits because the socket refused or because nothing is owed and all that came
   was read, or fails for an I/O error.  A connection that must close does, unless the socket refuses.
   */
  lemma {:induction false} PollPromises(s: Snap)
    requires GoAwayOk(s)
    ensures Promise(s, PollOn(s).0, PollOn(s).1)
    decreases Left(s), Rank(s.state)
  {
    hide Advances, Refusal, Silence, FaultSeen, EndSeen, HeardOut, Quiet, GoAwayOk, OpenOn;
    match s.state
    case Closed(_) =>
      AdvancesSame(s.w);
    case Closing(_) =>
      ClosingWorld(s);
    case Open =>
      OpenWorld(s);
      OpenShrinks(s);
      var (s1, r) := OpenOn(s);
      if s.closeNow {
        OpenCloses(s);
      }
      if r.None? && s1.state.Closing? {
        PromiseClosing(s, s1);
      } else if r.None? {
        PollPromises(s1);
        PromiseAfter(s, s1, PollOn(s1).0, PollOn(s1).1);
      }
  }

  /** How many rounds a state may still take beyond those that read a frame. */
  function Budget(s: Snap): (n: nat) {
    match s.state
    case Open => if s.closeNow then 2 else 3
    case Closing(_) => 1
    case Closed(_) => 0
  }

  /** A poll to which the socket refuses nothing asks a bounded number of questions for each event. */
  lemma {:induction false} PollAsks(s: Snap)
    requires GoAwayOk(s)
    ensures var s' := PollOn(s).0;
            && Advances(s.w, s'.w) && 0 <= Heard(s.w, s'.w) && 0 <= Asked(s.w, s'.w)
            && (!Refusal(s.w, s'.w) ==> Asked(s.w, s'.w) <= 7 * (Heard(s.w, s'.w) + Budget(s)))
    decreases Left(s), Rank(s.state)
  {
    hide Advances, Refusal, Silence, FaultSeen, EndSeen, HeardOut, Quiet, GoAwayOk, OpenOn;
    match s.state
    case Closed(_) =>
      AdvancesSame(s.w);
    case Closing(_) =>
      ClosingWorld(s);
    case Open =>
      OpenWorld(s);
      OpenShrinks(s);
      var (s1, r) := OpenOn(s);
      if s.closeNow {
        OpenCloses(s);
      }
      if r.None? {
        PollAsks(s1);
        AdvancesTwice(s.w, s1.w, PollOn(s1).0.w);
      }
  }

  // ----- whole runs -----

  /** The calls that close a connection at once. */
  ghost predicate AsksToClose(calls: seq<UserCall>) {
    exists c :: c in calls && (c.Abort? || c.NoStreamsLeft?)
  }

  /** What every run promises. */
  ghost predicate RunPromise(s: Snap, s': Snap, calls: seq<UserCall>, ok: bool) {
    && Advances(s.w, s'.w) && Stays(s, s')
    && (!ok ==> FaultSeen(s.w, s'.w, IoFault))
    && (ok && AsksToClose(calls) ==> s'.closeNow)
    && (ok && (AsksToClose(calls) || ShutDown in calls) ==> s'.goingAway.Some?)
    && (ok && Polling in calls ==> s'.state.Closed? || Stalled(s.w, s'.w))
    && (ok && calls != [] && calls[|calls| - 1].Polling? ==>
          s'.state.Closed? || Refusal(s.w, s'.w) || (s'.state.Open? && Settled(s')))
    && (ok && Polling !in calls ==> s'.w == s.w && s'.state == s.state)
  }

  lemma CallStays(s: Snap, call: UserCall)
    requires !call.Polling?
    ensures var (s', ok) := CallOn(s, call);
            && ok && Stays(s, s') && s'.w == s.w && s'.state == s.state
            && (call.Abort? || call.NoStreamsLeft? ==> s'.closeNow && s'.goingAway.Some?)
            && (call.ShutDown? ==> s'.goingAway.Some?)
  {
  }

  lemma {:induction false} RunPromises(s: Snap, calls: seq<UserCall>)
    requires GoAwayOk(s)
    ensures RunPromise(s, DriveOn(s, calls).0, calls, DriveOn(s, calls).1)
  {
    hide Advances, Refusal, Silence, FaultSeen, EndSeen, HeardOut, Quiet, GoAwayOk, PollOn, CallOn;
    if calls == [] {
      AdvancesSame(s.w);
    } else {
      var n := |calls| - 1;
      var (s1, ok) := DriveOn(s, calls[..n]);
      RunPromises(s, calls[..n]);
      assert calls == calls[..n] + [calls[n]];
      if ok {
        RunStep(s, s1, calls[..n], calls[n]);
      }
    }
  }

  lemma AskedBefore(calls: seq<UserCall>, call: UserCall)
    ensures AsksToClose(calls + [call]) <==> AsksToClose(calls) || call.Abort? || call.NoStreamsLeft?
  {
    if AsksToClose(calls) {
      var c :| c in calls && (c.Abort? || c.NoStreamsLeft?);
      assert c in calls + [call];
    }
    assert call in calls + [call];
  }

  lemma HeardOutIsSilence(w: World, w': World)
    requires Advances(w, w')
    ensures HeardOut(w, w') ==> Silence(w, w')
  {
  }

  lemma RunStep(s: Snap, s1: Snap, calls: seq<UserCall>, call: UserCall)
    requires GoAwayOk(s) && RunPromise(s, s1, calls, true)
    ensures RunPromise(s, CallOn(s1, call).0, calls + [call], CallOn(s1, call).1)
  {
    hide Advances, Refusal, Silence, FaultSeen, EndSeen, HeardOut, Quiet, GoAwayOk, PollOn;
    AskedBefore(calls, call);
    if call.Polling? {
      PollPromises(s1);
      var s' := PollOn(s1).0;
      AdvancesTwice(s.w, s1.w, s'.w);
      HeardOutIsSilence(s1.w, s'.w);
    } else {
      CallStays(s1, call);
    }
  }
}

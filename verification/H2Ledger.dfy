/** Every SETTINGS frame sent is acknowledged once, and an acknowledgement too many ends the connection. */
module H2Ledger {
  import opened Wrappers
  import opened H2Codec
  import opened H2Loop
  import opened H2Promise
  import S = H2Settings

  function Outstanding(l: S.Local): (n: nat) {
    if l.WaitingAck? then 1 else 0
  }

  /** Between the two moments as many acknowledgements came as SETTINGS went out, but for the one outstanding. */
  ghost predicate Balanced(s: Snap, s': Snap) {
    |Collect(SettingsOf, s'.w.buffered)| + |Collect(AckIn, s.w.log)| + Outstanding(s.local)
    == |Collect(SettingsOf, s.w.buffered)| + |Collect(AckIn, s'.w.log)| + Outstanding(s'.local)
  }

  lemma Wrote(s: Snap, f: Out)
    ensures |Collect(SettingsOf, s.w.buffered + [f])|
            == |Collect(SettingsOf, s.w.buffered)| + (if f.SettingsOut? then 1 else 0)
  {
    CollectPush(SettingsOf, s.w.buffered, f);
  }

  lemma TookIn(s: Snap, f: In)
    ensures |Collect(AckIn, s.w.log + [f])|
            == |Collect(AckIn, s.w.log)| + (if f.SettingsIn? && f.ack then 1 else 0)
  {
    CollectPush(AckIn, s.w.log, f);
  }

  // ----- a round -----

  lemma GoAwayBalanced(s: Snap)
    ensures Balanced(s, GoAwayOn(s).0)
  {
    hide Collect;
    if s.pending.Some? {
      Wrote(s, GoAwayOut(s.pending.value.id, s.pending.value.reason));
    }
  }

  lemma PongBalanced(s: Snap)
    ensures Balanced(s, PongOn(s).0)
  {
    hide Collect;
    if s.pong.Some? {
      Wrote(s, PongOut(s.pong.value));
    }
  }

  lemma PingBalanced(s: Snap)
    ensures Balanced(s, PingOn(s).0)
  {
    hide Collect;
    Wrote(s, PingOut(USER));
    if s.ping.Some? {
      Wrote(s, PingOut(s.ping.value.payload));
    }
  }

  lemma SettingsBalanced(s: Snap)
    ensures Balanced(s, SettingsOn(s).0)
  {
    hide Collect;
    Wrote(s, SettingsAck);
    if s.local.ToSend? {
      Wrote(s, SettingsOut(s.local.params));
      Wrote(Write(s, SettingsAck), SettingsOut(s.local.params));
    }
  }

  lemma ReadyBalanced(s: Snap)
    ensures Balanced(s, ReadyOn(s).0)
  {
    hide Collect, PongOn, PingOn, SettingsOn;
    PongBalanced(s);
    var s1 := PongOn(s).0;
    PingBalanced(s1);
    var s2 := PingOn(s1).0;
    SettingsBalanced(s2);
  }

  /** A frame that raises no fault of the connection. */
  lemma ReadBalanced(s: Snap)
    ensures Balanced(s, ReadOn(s).0) || (ReadOn(s).1.Some? && ReadOn(s).1.value.Failed?)
  {
    hide Collect;
    var e := NextEvent(s.w.incoming);
    assert s.w.log + [] == s.w.log;
    if e.Arrived? {
      TookIn(s, e.frame);
    }
  }

  lemma RoundBalanced(s: Snap)
    ensures Balanced(s, RoundOn(s).0) || (RoundOn(s).1.Some? && RoundOn(s).1.value.Failed?)
  {
    hide Balanced, GoAwayOn, ReadyOn, ReadOn;
    GoAwayBalanced(s);
    var s1 := GoAwayOn(s).0;
    ReadyBalanced(s1);
    var s2 := ReadyOn(s1).0;
    ReadBalanced(s2);
    Twice(s, s1, s2);
    if Balanced(s2, ReadOn(s2).0) {
      Twice(s, s2, ReadOn(s2).0);
    }
  }

  lemma Twice(a: Snap, b: Snap, c: Snap)
    requires Balanced(a, b) && Balanced(b, c)
    ensures Balanced(a, c)
  {
    hide Collect;
  }

  /** Only a stream error leaves the loop with the connection unharmed; it raises nothing about settings. */
  lemma ReadStreamFault(s: Snap)
    requires ReadOn(s).1 == Some(Failed(StreamFault))
    ensures Balanced(s, ReadOn(s).0)
  {
    hide Collect;
    var e := NextEvent(s.w.incoming);
    assert s.w.log + [] == s.w.log;
    if e.Arrived? {
      TookIn(s, e.frame);
    }
  }

  lemma RoundStreamFault(s: Snap)
    requires RoundOn(s).1 == Some(Failed(StreamFault))
    ensures Balanced(s, RoundOn(s).0)
  {
    hide Balanced, GoAwayOn, ReadyOn, ReadOn;
    GoAwayBalanced(s);
    var s1 := GoAwayOn(s).0;
    ReadyBalanced(s1);
    var s2 := ReadyOn(s1).0;
    ReadStreamFault(s2);
    Twice(s, s1, s2);
    Twice(s, s2, ReadOn(s2).0);
  }

  /** The outcomes after which the connection may go on. */
  predicate Unharmed(r: Poll2Result) {
    r.Failed? ==> r.fault.StreamFault?
  }

  lemma {:induction false} Poll2Balanced(s: Snap)
    ensures Unharmed(Poll2On(s).1) ==> Balanced(s, Poll2On(s).0)
    decreases Left(s)
  {
    hide Balanced, RoundOn;
    var (s1, r) := RoundOn(s);
    RoundBalanced(s);
    if r == Some(Failed(StreamFault)) {
      RoundStreamFault(s);
    }
    if r.None? {
      Poll2Balanced(s1);
      if Unharmed(Poll2On(s1).1) {
        Twice(s, s1, Poll2On(s1).0);
      }
    }
  }

  // ----- polls and runs -----

  lemma OpenBalanced(s: Snap)
    requires GoAwayOk(s) && s.state.Open? && OpenOn(s).1 != Some(false)
    ensures Balanced(s, OpenOn(s).0) || Dead(OpenOn(s).0)
  {
    hide Collect, Poll2On;
    Poll2Balanced(s);
  }

  lemma {:induction false} PollBalanced(s: Snap)
    requires GoAwayOk(s) && PollOn(s).1
    ensures Balanced(s, PollOn(s).0) || Dead(PollOn(s).0)
    decreases Left(s), Rank(s.state)
  {
    hide Balanced, OpenOn, GoAwayOk;
    PollPromises(s);
    if s.state.Open? {
      OpenShrinks(s);
      OpenWorld(s);
      OpenBalanced(s);
      var (s1, r) := OpenOn(s);
      if r.None? {
        PollBalanced(s1);
        PollPromises(s1);
        if Balanced(s, s1) && Balanced(s1, PollOn(s1).0) {
          Twice(s, s1, PollOn(s1).0);
        }
      }
    }
  }

  lemma CallBalanced(s: Snap, call: UserCall)
    requires !call.Polling?
    ensures Balanced(s, CallOn(s, call).0)
  {
    hide Collect;
  }

  /** Over every run a connection that is not closing has had one acknowledgement for each SETTINGS, and no more. */
  lemma {:induction false} RunBalanced(s: Snap, calls: seq<UserCall>)
    requires GoAwayOk(s) && DriveOn(s, calls).1
    ensures Balanced(s, DriveOn(s, calls).0) || Dead(DriveOn(s, calls).0)
  {
    hide Balanced, PollOn, GoAwayOk, CallOn, RunPromise;
    if calls == [] {
      Same(s);
    } else {
      var n := |calls| - 1;
      var (s1, ok) := DriveOn(s, calls[..n]);
      RunBalanced(s, calls[..n]);
      RunPromises(s, calls[..n]);
      StaysOk(s, s1, calls[..n], ok);
      StepBalanced(s1, calls[n]);
      var s' := CallOn(s1, calls[n]).0;
      if Balanced(s, s1) && Balanced(s1, s') {
        Twice(s, s1, s');
      }
    }
  }

  lemma Same(s: Snap)
    ensures Balanced(s, s)
  {
  }

  lemma StaysOk(s: Snap, s': Snap, calls: seq<UserCall>, ok: bool)
    requires RunPromise(s, s', calls, ok) && GoAwayOk(s)
    ensures GoAwayOk(s')
  {
  }

  lemma StepBalanced(s: Snap, call: UserCall)
    requires GoAwayOk(s) && CallOn(s, call).1
    ensures var s' := CallOn(s, call).0; (Balanced(s, s') || Dead(s')) && (Dead(s) ==> Dead(s'))
  {
    hide Balanced, PollOn, GoAwayOk;
    if call.Polling? {
      PollBalanced(s);
      PollPromises(s);
    } else {
      CallBalanced(s, call);
      CallStays(s, call);
    }
  }
}

/**
 The connection's poll loop: the order in which GOAWAY, PING and SETTINGS are handled.

 `Inv` holds between any two calls until an I/O error.  It says that the assertions of the
 control code cannot fail and what the log of frames written owes to the log of frames
 received.
 */
module H2Connection {
  import opened Wrappers
  import opened Octets
  import opened Supply
  import opened H2Codec
  import opened H2GoAway
  import opened H2PingPong
  import opened H2Loop
  import opened H2Promise
  import opened H2Events
  import opened H2Shutdown
  import Ledger = H2Ledger
  import S = H2Settings

  predicate Raised(r: Option<Poll2Result>) {
    r.Some? && r.value.Failed? && r.value.fault.ConnFault?
  }

  function Opt<T>(o: Option<T>): (r: seq<T>) {
    if o.Some? then [o.value] else []
  }

  /** The part of the stream layer that GOAWAY depends on. */
  class Streams {
    var lastProcessedId: nat
    var maxStreamId: nat

    constructor ()
      ensures lastProcessedId == 0 && maxStreamId == MAX_STREAM_ID
    {
      lastProcessedId, maxStreamId := 0, MAX_STREAM_ID;
    }

    /** A frame for a stream; those above the announced limit are ignored. */
    method Recv(id: nat)
      requires lastProcessedId <= maxStreamId
      modifies this`lastProcessedId
      ensures lastProcessedId == if old(lastProcessedId) < id <= maxStreamId then id else old(lastProcessedId)
    {
      if lastProcessedId < id <= maxStreamId {
        lastProcessedId := id;
      }
    }

    method SendGoAway(id: nat)
      requires id <= maxStreamId
      modifies this`maxStreamId
      ensures maxStreamId == id
    {
      maxStreamId := id;
    }
  }

  // ----- what the logs say -----

  lemma LogPush(out: seq<Out>, f: Out)
    ensures Collect(GoAwayIdOf, out + [f]) == Collect(GoAwayIdOf, out) + GoAwayIdOf(f)
    ensures Collect(PongOf, out + [f]) == Collect(PongOf, out) + PongOf(f)
    ensures Collect(AckOf, out + [f]) == Collect(AckOf, out) + AckOf(f)
    ensures Collect(SettingsOf, out + [f]) == Collect(SettingsOf, out) + SettingsOf(f)
  {
    CollectPush(GoAwayIdOf, out, f);
    CollectPush(PongOf, out, f);
    CollectPush(AckOf, out, f);
    CollectPush(SettingsOf, out, f);
  }

  lemma InPush(log: seq<In>, f: In)
    ensures Collect(PingOf, log + [f]) == Collect(PingOf, log) + PingOf(f)
    ensures Collect(RemoteOf, log + [f]) == Collect(RemoteOf, log) + RemoteOf(f)
    ensures Collect(AckIn, log + [f]) == Collect(AckIn, log) + AckIn(f)
  {
    CollectPush(PingOf, log, f);
    CollectPush(RemoteOf, log, f);
    CollectPush(AckIn, log, f);
  }

  /** GOAWAY ids written never increase and none is below the last one decided. */
  ghost predicate GoAwayLog(out: seq<Out>, goingAway: Option<Notice>) {
    var ids := Collect(GoAwayIdOf, out);
    && NonIncreasing(ids)
    && (goingAway.None? ==> ids == [])
    && (goingAway.Some? ==> forall i :: 0 <= i < |ids| ==> goingAway.value.id <= ids[i])
  }

  function NoticeOf(f: Out): (r: seq<Notice>) {
    if f.GoAwayOut? then [Notice(f.id, f.reason)] else []
  }

  /** What was decided is the GOAWAY written last, unless it is still pending. */
  ghost predicate Told(out: seq<Out>, goingAway: Option<Notice>, pending: Option<Notice>) {
    goingAway.Some? && pending.None? ==>
      var ns := Collect(NoticeOf, out);
      ns != [] && ns[|ns| - 1] == goingAway.value
  }

  lemma ToldPush(out: seq<Out>, f: Out, goingAway: Option<Notice>, pending: Option<Notice>)
    requires if f.GoAwayOut? then goingAway == Some(Notice(f.id, f.reason)) else Told(out, goingAway, pending)
    ensures Told(out + [f], goingAway, pending)
  {
    hide Collect;
    CollectPush(NoticeOf, out, f);
  }

  /** PONGs answer PINGs in order, short by at most the one still pending. */
  ghost predicate PingLog(out: seq<Out>, log: seq<In>, pendingPong: Option<Bytes>) {
    Collect(PongOf, out) + Opt(pendingPong) == Collect(PingOf, log)
  }

  /** Every SETTINGS of the peer has been acknowledged and applied, save one that waits. */
  ghost predicate RemoteLog(out: seq<Out>, log: seq<In>, applied: seq<Params>, remote: Option<Params>, stuck: bool) {
    && applied + Opt(remote) == Collect(RemoteOf, log)
    && |Collect(AckOf, out)| == |applied| + (if stuck then 1 else 0)
  }

  function Outstanding(l: S.Local): (r: seq<Params>) {
    if l.WaitingAck? then [l.params] else []
  }

  /** Our SETTINGS are applied in the order sent, each for one ack received. */
  ghost predicate LocalLog(out: seq<Out>, log: seq<In>, initial: Params, applied: seq<Params>, local: S.Local) {
    && [initial] + Collect(SettingsOf, out) == applied + Outstanding(local)
    && |applied| <= |Collect(AckIn, log)|
  }

  class Connection {
    var state: ConnState
    var error: Option<Notice>
    const codec: Codec
    const goAway: GoAway
    const pingPong: PingPong
    const settings: S.Settings
    const streams: Streams
    /** Frames received so far, and how many there were when the connection decided to close at once. */
    ghost var log: seq<In>
    ghost var logAtClose: nat
    ghost const initial: Params
    /** An ack was written for settings that could not be applied. */
    ghost var stuck: bool

    ghost predicate Ending()
      reads this, goAway
    {
      goAway.closeNow || !state.Open?
    }

    ghost predicate Ids()
      reads goAway, pingPong, streams
    {
      && goAway.Valid() && pingPong.Valid()
      && streams.lastProcessedId <= streams.maxStreamId <= MAX_STREAM_ID
      && (goAway.goingAway.None? ==> streams.maxStreamId == MAX_STREAM_ID)
      && (goAway.goingAway.Some? ==> streams.lastProcessedId <= goAway.goingAway.value.id)
      && (goAway.goingAway.Some? && !goAway.closeNow ==>
            goAway.goingAway.value.reason == NO_ERROR && streams.maxStreamId <= goAway.goingAway.value.id)
      && (pingPong.pendingPing.Some? ==> goAway.goingAway.Some?)
    }

    ghost predicate Logs()
      reads this`log, this`logAtClose, this`stuck, codec`buffered, goAway, pingPong, settings
    {
      && GoAwayLog(codec.buffered, goAway.goingAway)
      && Told(codec.buffered, goAway.goingAway, goAway.pending)
      && PingLog(codec.buffered, log, pingPong.pendingPong)
      && RemoteLog(codec.buffered, log, settings.remoteApplied, settings.remote, stuck)
      && LocalLog(codec.buffered, log, initial, settings.localApplied, settings.local)
      && (goAway.closeNow ==> |log| == logAtClose)
    }

    /** `faulted`: a connection error has been raised and is about to be handled. */
    ghost predicate Inv(faulted: bool)
      reads this, codec`buffered, goAway, pingPong, settings, streams
    {
      Ids() && Logs() && (stuck ==> settings.remote.Some? && (Ending() || faulted))
    }

    /** The connection as a value. */
    ghost function Now(): (s: Snap)
      reads this, codec, goAway, pingPong, settings, streams
    {
      Snap(state, error, goAway.closeNow, goAway.goingAway, goAway.isUserInitiated, goAway.pending,
           pingPong.pendingPong, pingPong.pendingPing, settings.remote, settings.local,
           streams.lastProcessedId, streams.maxStreamId, World(codec.script, codec.incoming, codec.buffered, log))
    }

    constructor (script: seq<Turn>, incoming: seq<Event>, initial: Params)
      ensures Inv(false) && state.Open? && this.initial == initial
      ensures Now().w == World(Source(script, 0), Source(incoming, 0), [], []) && Orderly(Now())
      ensures fresh(codec) && fresh(goAway) && fresh(pingPong) && fresh(settings) && fresh(streams)
    {
      state, error := Open, None;
      codec := new Codec(script, incoming);
      goAway := new GoAway();
      pingPong := new PingPong();
      settings := new S.Settings(initial);
      streams := new Streams();
      log, logAtClose, stuck := [], 0, false;
      this.initial := initial;
    }

    // ----- GOAWAY -----

    /** Announces the last stream processed, and closes. */
    method CloseNow(reason: nat)
      requires Inv(true)
      modifies this`logAtClose, goAway
      ensures Inv(false) && goAway.closeNow && goAway.goingAway == Some(Notice(streams.lastProcessedId, reason))
      ensures Now() == CloseOn(old(Now()), reason)
    {
      hide Collect, GoAwayLog, Told, PingLog, RemoteLog, LocalLog;
      if !goAway.closeNow {
        logAtClose := |log|;
      }
      var notice := Notice(streams.lastProcessedId, reason);
      NewNotice(codec.buffered, goAway.goingAway, notice);
      goAway.GoAwayNow(notice);
    }

    /** An abrupt shutdown asked for by the user. */
    method GoAwayFromUser(reason: nat)
      requires Inv(false)
      modifies this`logAtClose, goAway
      ensures Inv(false) && goAway.closeNow && goAway.goingAway == Some(Notice(streams.lastProcessedId, reason))
      ensures Now() == CloseOn(old(Now()), reason).(isUserInitiated := true)
    {
      hide Collect, GoAwayLog, Told, PingLog, RemoteLog, LocalLog;
      if !goAway.closeNow {
        logAtClose := |log|;
      }
      var notice := Notice(streams.lastProcessedId, reason);
      NewNotice(codec.buffered, goAway.goingAway, notice);
      goAway.GoAwayFromUser(notice);
    }

    /** Starts a graceful shutdown: a GOAWAY for every stream, then a PING to wait one round trip. */
    method GoAwayGracefully()
      requires Inv(false)
      modifies goAway, streams, pingPong
      ensures Inv(false) && Now() == ShutDownOn(old(Now()))
      ensures old(goAway.goingAway).None? ==>
                && goAway.pending == goAway.goingAway == Some(Notice(MAX_STREAM_ID, NO_ERROR)) && !goAway.closeNow
                && pingPong.pendingPing == Some(PendingPing(SHUTDOWN, false))
      ensures old(goAway.goingAway).Some? ==>
                && goAway.goingAway == old(goAway.goingAway) && goAway.pending == old(goAway.pending)
                && pingPong.pendingPing == old(pingPong.pendingPing)
    {
      if goAway.goingAway.Some? {
        return;
      }
      hide Collect, GoAwayLog, Told, PingLog, RemoteLog, LocalLog;
      NewNotice(codec.buffered, None, Notice(MAX_STREAM_ID, NO_ERROR));
      streams.SendGoAway(MAX_STREAM_ID);
      goAway.Schedule(Notice(MAX_STREAM_ID, NO_ERROR));
      pingPong.PingShutdown();
    }

    method SendSettings(params: Params) returns (accepted: bool)
      requires Inv(false)
      modifies settings
      ensures Inv(false) && (accepted <==> old(settings.local).Synced?)
      ensures Now() == ConfigureOn(old(Now()), params)
    {
      accepted := settings.SendSettings(params);
    }

    // ----- one turn of the loop -----

    /** Writes a pending GOAWAY. */
    method PollGoAway() returns (p: Progress)
      requires Inv(false)
      modifies goAway`pending, codec`script, codec`buffered
      ensures !p.Broke? ==> Inv(false)
      ensures (Now(), p) == GoAwayOn(old(Now()))
      ensures p.Idle? ==> !goAway.closeNow
      ensures p.Sent? ==> goAway.pending.None? && goAway.goingAway.Some? && p.reason == goAway.goingAway.value.reason
    {
      hide Collect, GoAwayLog, Told, PingLog, RemoteLog, LocalLog;
      if goAway.pending.Some? {
        GoAwayWritten(codec.buffered, goAway.pending.value, log, pingPong.pendingPong, settings.remoteApplied,
                      settings.remote, stuck, initial, settings.localApplied, settings.local);
        ToldPush(codec.buffered, GoAwayOut(goAway.pending.value.id, goAway.pending.value.reason),
                 goAway.goingAway, None);
      }
      p := goAway.SendPending(codec);
    }

    /** Answers what has been received; when it is done nothing waits to be answered. */
    method PollReady() returns (r: S.Outcome)
      requires Inv(false) && !Ending()
      modifies this`stuck, pingPong, settings, codec`script, codec`buffered
      ensures !r.Broke? ==> Inv(r.Faulted?)
      ensures (Now(), r) == ReadyOn(old(Now()))
      ensures r.Done? ==> Quiet(Now())
    {
      hide Logs, Ids, PongOn, PingOn, SettingsOn, Quiet;
      ReadySends(Now());
      var pong := SendPong();
      if !pong.Ready? {
        return AsOutcome(pong);
      }
      var ping := SendPing();
      if !ping.Ready? {
        return AsOutcome(ping);
      }
      r := SendSettingsFrames();
      if r.Done? {
        // Refusals are the stream layer's to send.
        var t := codec.Draw();
        r := AsOutcome(t.ready);
      }
    }

    method SendPong() returns (r: Readiness)
      requires Inv(false)
      modifies pingPong`pendingPong, codec`script, codec`buffered
      ensures !r.IoFailure? ==> Inv(false)
      ensures (Now(), r) == PongOn(old(Now()))
    {
      hide Collect, GoAwayLog, Told, PingLog, RemoteLog, LocalLog;
      if pingPong.pendingPong.Some? {
        PongWritten(codec.buffered, pingPong.pendingPong.value, log, goAway.goingAway, settings.remoteApplied,
                    settings.remote, stuck, initial, settings.localApplied, settings.local);
        ToldPush(codec.buffered, PongOut(pingPong.pendingPong.value), goAway.goingAway, goAway.pending);
      }
      r := pingPong.SendPendingPong(codec);
    }

    method SendPing() returns (r: Readiness)
      requires Inv(false)
      modifies pingPong`pendingPing, codec`script, codec`buffered
      ensures Inv(false)
      ensures (Now(), r) == PingOn(old(Now()))
    {
      hide Collect, GoAwayLog, Told, PingLog, RemoteLog, LocalLog;
      ghost var out, written := codec.buffered, [];
      r, written := pingPong.SendPendingPing(codec);
      if written != [] {
        ToldPush(out, PingOut(written[0]), goAway.goingAway, goAway.pending);
        PingWritten(out, written[0], log, goAway.goingAway, pingPong.pendingPong, settings.remoteApplied,
                    settings.remote, stuck, initial, settings.localApplied, settings.local);
      }
    }

    method SendSettingsFrames() returns (r: S.Outcome)
      requires Inv(false) && !Ending()
      modifies this`stuck, settings, codec`script, codec`buffered
      ensures !r.Broke? ==> Inv(r.Faulted?)
      ensures (Now(), r) == SettingsOn(old(Now()))
    {
      hide Collect, S.Advanced, GoAwayLog, Told, PingLog, RemoteLog, LocalLog, S.Send;
      ghost var out, remote, local, applied := codec.buffered, settings.remote, settings.local, settings.remoteApplied;
      r := settings.PollSend(codec);
      ToldPush(out, SettingsAck, goAway.goingAway, goAway.pending);
      if r.Done? || r.Blocked? {
        ToldAdvanced(out, codec.buffered, applied, settings.remoteApplied, remote, settings.remote,
                     local, settings.local, goAway.goingAway, goAway.pending);
        SettingsAdvanced(out, codec.buffered, log, applied, settings.remoteApplied, remote, settings.remote,
                         local, settings.local, initial, settings.localApplied, goAway.goingAway, pingPong.pendingPong);
      } else if r.Faulted? {
        SettingsFaulted(out, log, applied, remote, local, initial, settings.localApplied, goAway.goingAway,
                        pingPong.pendingPong);
        stuck := true;
      }
    }

    /** Takes in one frame.  Nothing may be waiting for an answer, and the connection must not be closing. */
    method RecvFrame(frame: In, answer: Option<Fault>, settingsFault: Option<nat>) returns (fault: Option<Fault>)
      requires Inv(false) && !Ending()
      requires pingPong.pendingPong.None? && settings.remote.None?
      modifies this, goAway, pingPong, settings, streams
      ensures Inv(false) && state == old(state) && log == old(log) + [frame]
      ensures var s := old(Now());
              (Now(), fault) == RecvOn(s.(w := s.w.(log := s.w.log + [frame])), frame, answer, settingsFault)
      ensures frame.PingIn? && !frame.ack ==> pingPong.pendingPong == Some(frame.payload)
      ensures frame.SettingsIn? && !frame.ack ==> settings.remote == Some(frame.params)
      ensures frame.PingIn? && frame.ack && frame.payload == SHUTDOWN && old(pingPong.pendingPing).Some? ==>
                pingPong.pendingPing.None? && goAway.pending == Some(Notice(streams.lastProcessedId, NO_ERROR))
                && streams.maxStreamId == streams.lastProcessedId
    {
      hide Collect, GoAwayLog, Told, PingLog, RemoteLog, LocalLog;
      TakenIn(codec.buffered, log, frame, settings.remoteApplied, initial, settings.localApplied, settings.local);
      log := log + [frame];
      fault := None;
      match frame {
        case StreamIn(id) =>
          streams.Recv(id);
          fault := answer;
        case SettingsIn(ack, params) =>
          var r := settings.RecvSettings(ack, params, settingsFault);
          if r.Faulted? {
            fault := Some(ConnFault(r.reason));
          }
        case GoAwayIn(id, reason) =>
          fault := answer;
          if fault.None? {
            error := Some(Notice(id, reason));
          }
        case PingIn(ack, payload) =>
          var status := pingPong.RecvPing(ack, payload);
          if status.Shutdown? {
            assert goAway.goingAway.Some?;
            var id := streams.lastProcessedId;
            NewNotice(codec.buffered, goAway.goingAway, Notice(id, NO_ERROR));
            streams.SendGoAway(id);
            goAway.Schedule(Notice(id, NO_ERROR));
          }
        case PriorityIn =>
      }
    }

    /** One round: what is owed goes out, then one frame is taken in. */
    method Round() returns (r: Option<Poll2Result>)
      requires Inv(false) && state.Open?
      modifies this, codec, goAway, pingPong, settings, streams
      ensures r != Some(Failed(IoFault)) ==> Inv(Raised(r))
      ensures (Now(), r) == RoundOn(old(Now()))
      ensures Keeps(old(Now()), Now()) && Advances(old(Now()).w, Now().w)
      ensures r.Some? ==> Explained(old(Now()), Now(), r.value)
    {
      hide Logs, Ids, GoAwayOn, ReadyOn, ReadOn, Keeps, Advances, Explained, Quiet;
      ghost var s := Now();
      StartsOk();
      RoundKeeps(s);
      RoundWorld(s);
      var p := PollGoAway();
      match p {
        case Broke => return Some(Failed(IoFault));
        case Blocked => return Some(Pending);
        case Sent(reason) =>
          if goAway.ShouldCloseNow() {
            return Some(if goAway.isUserInitiated then Finished else Failed(ConnFault(reason)));
          }
          GracefulReason();
          assert reason == NO_ERROR;
        case Idle =>
      }
      var ready := PollReady();
      match ready {
        case Broke => return Some(Failed(IoFault));
        case Blocked => return Some(Pending);
        case Faulted(reason) => return Some(Failed(ConnFault(reason)));
        case Done =>
      }
      NothingOwed();
      r := ReadFrame();
    }

    lemma StartsOk()
      requires Ids()
      ensures GoAwayOk(Now())
    {
    }

    lemma NothingOwed()
      requires Quiet(Now())
      ensures pingPong.pendingPong.None? && settings.remote.None?
    {
    }

    /** Takes in the next frame, if there is one. */
    method ReadFrame() returns (r: Option<Poll2Result>)
      requires Inv(false) && !Ending()
      requires pingPong.pendingPong.None? && settings.remote.None?
      modifies this, codec, goAway, pingPong, settings, streams
      ensures Inv(false)
      ensures (Now(), r) == ReadOn(old(Now()))
    {
      hide Logs, Ids, RecvOn;
      assert log + [] == log;
      var e := codec.Receive();
      match e {
        case Nothing => r := Some(Pending);
        case Eof => r := Some(Finished);
        case Broken(fault) => r := Some(Failed(fault));
        case Arrived(frame, answer, settingsFault) =>
          var fault := RecvFrame(frame, answer, settingsFault);
          r := if fault.Some? then Some(Failed(fault.value)) else None;
      }
    }

    /** Runs the connection until it blocks, ends or fails. */
    method Poll2() returns (r: Poll2Result)
      requires Inv(false) && state.Open?
      modifies this, codec, goAway, pingPong, settings, streams
      ensures r != Failed(IoFault) ==> Inv(Raised(Some(r)))
      ensures (Now(), r) == Poll2On(old(Now()))
      ensures state.Open? && Keeps(old(Now()), Now())
      ensures Advances(old(Now()).w, Now().w) && Explained(old(Now()), Now(), r)
      ensures Asked(old(Now()).w, Now().w) <= 6 * (Heard(old(Now()).w, Now().w) + 1)
    {
      hide Logs, Ids, RoundOn, Advances, Explained;
      StartsOk();
      Poll2World(Now());
      while true
        invariant Inv(false) && state.Open? && Poll2On(Now()) == Poll2On(old(Now()))
        decreases Left(Now())
      {
        var round := Round();
        if round.Some? {
          return round.value;
        }
      }
    }

    lemma GracefulReason()
      requires Ids()
      ensures goAway.goingAway.Some? && !goAway.closeNow ==> goAway.goingAway.value.reason == NO_ERROR
    {
    }

    /** Decides what an outcome means; false on an I/O error, which ends the connection. */
    method HandlePoll2Result(result: Poll2Result) returns (ok: bool)
      requires !result.Pending? && state.Open?
      requires result != Failed(IoFault) ==> Inv(result.Failed? && result.fault.ConnFault?)
      modifies this`state, this`logAtClose, goAway
      ensures ok <==> result != Failed(IoFault)
      ensures ok ==> Inv(false)
      ensures (Now(), ok) == HandleOn(old(Now()), result)
      ensures result.Failed? && result.fault.ConnFault? ==>
                if old(goAway.goingAway).Some? && old(goAway.goingAway).value.reason == result.fault.reason
                then state == Closing(result.fault.reason) && goAway.goingAway == old(goAway.goingAway)
                else state.Open? && goAway.goingAway == Some(Notice(streams.lastProcessedId, result.fault.reason))
    {
      match result {
        case Finished =>
          state := Closing(NO_ERROR);
          ok := true;
        case Failed(ConnFault(reason)) =>
          if goAway.goingAway.Some? && goAway.goingAway.value.reason == reason {
            state := Closing(reason);
          } else {
            CloseNow(reason);
          }
          ok := true;
        case Failed(StreamFault) =>
          ok := true;
        case Failed(IoFault) =>
          ok := false;
      }
    }

    /** One step of an open connection; `None` to go on. */
    method PollOpen() returns (r: Option<bool>)
      requires Inv(false) && state.Open?
      modifies this, codec, goAway, pingPong, settings, streams
      ensures r != Some(false) ==> Inv(false)
      ensures (Now(), r) == OpenOn(old(Now()))
      ensures Advances(old(Now()).w, Now().w) && HasCause(old(Now()), Now())
      ensures r == Some(true) ==> Waits(old(Now()), Now())
    {
      hide Logs, Ids, Poll2On, Advances, HasCause, Waits, HandleOn, Explained, Keeps;
      StartsOk();
      OpenWorld(Now());
      var result := Poll2();
      if result.Pending? {
        var t := codec.Draw();
        match t.ready {
          case IoFailure => return Some(false);
          case NotReady => return Some(true);
          case Ready =>
        }
        if (error.Some? || goAway.ShouldCloseOnIdle()) && !t.hasStreams {
          CloseNow(NO_ERROR);
          return None;
        }
        return Some(true);
      }
      var handled := HandlePoll2Result(result);
      r := if handled then None else Some(false);
    }

    /** Advances the connection; false on an I/O error, and only then. */
    method Poll() returns (ok: bool)
      requires Inv(false)
      modifies this, codec, goAway, pingPong, settings, streams
      ensures ok ==> Inv(false)
      ensures (Now(), ok) == PollOn(old(Now()))
      ensures Promise(old(Now()), Now(), ok) && Answered(old(Now()), Now(), ok)
    {
      hide Logs, Ids, OpenOn, Promise, HasCause, Waits, Advances, Answered;
      StartsOk();
      PollPromises(Now());
      PollAnswered(Now());
      while true
        invariant Inv(false) && PollOn(Now()) == PollOn(old(Now()))
        decreases Left(Now()), Rank(state)
      {
        match state {
          case Open =>
            OpenShrinks(Now());
            var r := PollOpen();
            if r.Some? {
              return r.value;
            }
          case Closing(reason) =>
            var t := codec.Draw();
            match t.ready {
              case IoFailure => return false;
              case NotReady => return true;
              case Ready => state := Closed(reason);
            }
          case Closed(_) =>
            return true;
        }
      }
    }

    /**
     Any run of polls and user calls keeps the invariant for as long as the socket does not fail.
     A connection that is closing takes in nothing more, and every request to go away is acted on.
     */
    method Drive(calls: seq<UserCall>) returns (ok: bool)
      requires Inv(false)
      modifies this, codec, goAway, pingPong, settings, streams
      ensures ok ==> Inv(false)
      ensures (Now(), ok) == DriveOn(old(Now()), calls)
      ensures RunPromise(old(Now()), Now(), calls, ok)
      ensures ok && Orderly(old(Now())) ==> RunKeeps(old(Now()), Now(), calls)
      ensures ok ==> Ledger.Balanced(old(Now()), Now()) || Ending()
    {
      hide Logs, Ids, PollOn, Promise, RunPromise, CloseOn, ShutDownOn, ConfigureOn, Orderly, RunKeeps,
           Answered, Ledger.Balanced;
      StartsOk();
      if DriveOn(Now(), calls).1 {
        Ledger.RunBalanced(Now(), calls);
      }
      if Orderly(Now()) && DriveOn(Now(), calls).1 {
        RunOrderly(Now(), calls);
      }
      RunPromises(Now(), calls);
      for i := 0 to |calls|
        invariant Inv(false) && DriveOn(old(Now()), calls[..i]) == (Now(), true)
      {
        ghost var before := Now();
        assert calls[..i + 1][..i] == calls[..i];
        match calls[i] {
          case Polling =>
            var alive := Poll();
            if !alive {
              DriveEnds(old(Now()), calls, i, Now());
              return false;
            }
          case Abort(reason) => GoAwayFromUser(reason);
          case ShutDown => GoAwayGracefully();
          case NoStreamsLeft => CloseNow(NO_ERROR);
          case Configure(params) =>
            var _ := SendSettings(params);
        }
      }
      assert calls[..|calls|] == calls;
      ok := true;
    }
  }

  /** A run that has failed stays as it is. */
  lemma {:induction false} DriveEnds(s: Snap, calls: seq<UserCall>, i: nat, s': Snap)
    requires i < |calls| && DriveOn(s, calls[..i + 1]) == (s', false)
    ensures DriveOn(s, calls) == (s', false)
    decreases |calls|
  {
    hide CallOn;
    if i + 1 == |calls| {
      assert calls[..i + 1] == calls;
    } else {
      var n := |calls| - 1;
      assert calls[..n][..i + 1] == calls[..i + 1];
      DriveEnds(s, calls[..n], i, s');
    }
  }

  /** Writing an ack, and perhaps our own settings, is all the logs see of a settings exchange. */
  lemma SettingsAdvanced(out: seq<Out>, out': seq<Out>, log: seq<In>, applied: seq<Params>, applied': seq<Params>,
                         remote: Option<Params>, remote': Option<Params>, local: S.Local, local': S.Local,
                         initial: Params, localApplied: seq<Params>, goingAway: Option<Notice>, pong: Option<Bytes>)
    requires S.Advanced(remote, remote', applied, applied', local, local', out, out')
    requires RemoteLog(out, log, applied, remote, false) && LocalLog(out, log, initial, localApplied, local)
    requires GoAwayLog(out, goingAway) && PingLog(out, log, pong)
    ensures RemoteLog(out', log, applied', remote', false) && LocalLog(out', log, initial, localApplied, local')
    ensures GoAwayLog(out', goingAway) && PingLog(out', log, pong)
  {
    hide Collect;
    LogPush(out, SettingsAck);
    var acked := if remote.Some? && remote'.None? then out + [SettingsAck] else out;
    if local.ToSend? {
      LogPush(acked, SettingsOut(local.params));
      SentOnce(acked, log, initial, localApplied, local);
    }
  }

  lemma ToldAdvanced(out: seq<Out>, out': seq<Out>, applied: seq<Params>, applied': seq<Params>,
                     remote: Option<Params>, remote': Option<Params>, local: S.Local, local': S.Local,
                     goingAway: Option<Notice>, pending: Option<Notice>)
    requires S.Advanced(remote, remote', applied, applied', local, local', out, out') && Told(out, goingAway, pending)
    ensures Told(out', goingAway, pending)
  {
    hide Told;
    ToldPush(out, SettingsAck, goingAway, pending);
    if local.ToSend? {
      ToldPush(out, SettingsOut(local.params), goingAway, pending);
      ToldPush(out + [SettingsAck], SettingsOut(local.params), goingAway, pending);
    }
  }

  lemma SettingsFaulted(out: seq<Out>, log: seq<In>, applied: seq<Params>, remote: Option<Params>, local: S.Local,
                        initial: Params, localApplied: seq<Params>, goingAway: Option<Notice>, pong: Option<Bytes>)
    requires RemoteLog(out, log, applied, remote, false) && LocalLog(out, log, initial, localApplied, local)
    requires GoAwayLog(out, goingAway) && PingLog(out, log, pong)
    ensures var out' := out + [SettingsAck];
            && RemoteLog(out', log, applied, remote, true) && LocalLog(out', log, initial, localApplied, local)
            && GoAwayLog(out', goingAway) && PingLog(out', log, pong)
  {
    hide Collect;
    LogPush(out, SettingsAck);
  }

  lemma SentOnce(out: seq<Out>, log: seq<In>, initial: Params, applied: seq<Params>, local: S.Local)
    requires LocalLog(out, log, initial, applied, local) && local.ToSend?
    ensures LocalLog(out + [SettingsOut(local.params)], log, initial, applied, S.WaitingAck(local.params))
  {
    hide Collect;
    LogPush(out, SettingsOut(local.params));
    var sent := Collect(SettingsOf, out);
    assert [initial] + (sent + [local.params]) == ([initial] + sent) + [local.params];
  }

  /** Writing the GOAWAY last decided keeps the ids from rising. */
  lemma GoAwayWritten(out: seq<Out>, n: Notice, log: seq<In>, pong: Option<Bytes>, applied: seq<Params>,
                      remote: Option<Params>, stuck: bool, initial: Params, localApplied: seq<Params>, local: S.Local)
    requires GoAwayLog(out, Some(n)) && PingLog(out, log, pong)
    requires RemoteLog(out, log, applied, remote, stuck) && LocalLog(out, log, initial, localApplied, local)
    ensures var out' := out + [GoAwayOut(n.id, n.reason)];
            && GoAwayLog(out', Some(n)) && PingLog(out', log, pong)
            && RemoteLog(out', log, applied, remote, stuck) && LocalLog(out', log, initial, localApplied, local)
  {
    hide Collect;
    LogPush(out, GoAwayOut(n.id, n.reason));
  }

  /** What taking in a frame does to the logs. */
  lemma TakenIn(out: seq<Out>, log: seq<In>, f: In, applied: seq<Params>, initial: Params,
                localApplied: seq<Params>, local: S.Local)
    requires PingLog(out, log, None) && RemoteLog(out, log, applied, None, false)
    requires LocalLog(out, log, initial, localApplied, local)
    ensures PingLog(out, log + [f], if f.PingIn? && !f.ack then Some(f.payload) else None)
    ensures RemoteLog(out, log + [f], applied, if f.SettingsIn? && !f.ack then Some(f.params) else None, false)
    ensures LocalLog(out, log + [f], initial, localApplied, local)
    ensures f.SettingsIn? && f.ack && local.WaitingAck? ==>
              LocalLog(out, log + [f], initial, localApplied + [local.params], S.Synced)
  {
    hide Collect;
    InPush(log, f);
  }

  /** A new decision keeps the log good as long as its id is not above the old one. */
  lemma NewNotice(out: seq<Out>, n: Option<Notice>, n': Notice)
    requires GoAwayLog(out, n) && (n.Some? ==> n'.id <= n.value.id)
    ensures GoAwayLog(out, Some(n')) && Told(out, Some(n'), Some(n'))
  {
    hide Collect;
  }

  lemma PongWritten(out: seq<Out>, p: Bytes, log: seq<In>, goingAway: Option<Notice>, applied: seq<Params>,
                    remote: Option<Params>, stuck: bool, initial: Params, localApplied: seq<Params>, local: S.Local)
    requires GoAwayLog(out, goingAway) && PingLog(out, log, Some(p))
    requires RemoteLog(out, log, applied, remote, stuck) && LocalLog(out, log, initial, localApplied, local)
    ensures var out' := out + [PongOut(p)];
            && GoAwayLog(out', goingAway) && PingLog(out', log, None)
            && RemoteLog(out', log, applied, remote, stuck) && LocalLog(out', log, initial, localApplied, local)
  {
    hide Collect;
    LogPush(out, PongOut(p));
  }

  lemma PingWritten(out: seq<Out>, p: Bytes, log: seq<In>, goingAway: Option<Notice>, pong: Option<Bytes>,
                    applied: seq<Params>, remote: Option<Params>, stuck: bool, initial: Params,
                    localApplied: seq<Params>, local: S.Local)
    requires GoAwayLog(out, goingAway) && PingLog(out, log, pong)
    requires RemoteLog(out, log, applied, remote, stuck) && LocalLog(out, log, initial, localApplied, local)
    ensures var out' := out + [PingOut(p)];
            && GoAwayLog(out', goingAway) && PingLog(out', log, pong)
            && RemoteLog(out', log, applied, remote, stuck) && LocalLog(out', log, initial, localApplied, local)
  {
    hide Collect;
    LogPush(out, PingOut(p));
  }
}

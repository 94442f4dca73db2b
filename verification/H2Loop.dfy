/**
 The poll loop on values: what each step makes of the control state and of the world.

 The functions follow the order in which the source asks the socket, and every answer they give
 is a function of the answers and events that come.
 */
module H2Loop {
  import opened Wrappers
  import opened Octets
  import opened Supply
  import opened H2Codec
  import opened H2GoAway
  import opened H2PingPong
  import S = H2Settings

  datatype ConnState = Open | Closing(reason: nat) | Closed(reason: nat)

  datatype Poll2Result = Pending | Finished | Failed(fault: Fault)

  /** What the owner of a connection may do with it. */
  datatype UserCall = Polling | Abort(reason: nat) | ShutDown | NoStreamsLeft | Configure(params: Params)

  /** A connection: what it has decided, what it owes, and the world. */
  datatype Snap = Snap(
    state: ConnState, error: Option<Notice>,
    closeNow: bool, goingAway: Option<Notice>, isUserInitiated: bool, pending: Option<Notice>,
    pong: Option<Bytes>, ping: Option<PendingPing>, remote: Option<Params>, local: S.Local,
    lastId: nat, maxId: nat, w: World)

  /** How much the socket's answers and the peer's events have left. */
  function Left(s: Snap): (n: nat) {
    |s.w.script.left| + |s.w.incoming.left|
  }

  function Answer(s: Snap): (t: Turn) {
    Next(s.w.script)
  }

  function Ask(s: Snap): (r: Snap)
    ensures Left(r) <= Left(s) && (!Answer(s).ready.NotReady? || Answer(s).settingsFault.Some? ==> Left(r) < Left(s))
  {
    s.(w := s.w.(script := Spend(s.w.script)))
  }

  function Write(s: Snap, f: Out): (r: Snap) {
    s.(w := s.w.(buffered := s.w.buffered + [f]))
  }

  // ----- one round -----

  /** A pending GOAWAY goes out. */
  function GoAwayOn(s: Snap): (r: (Snap, Progress))
    ensures Left(r.0) <= Left(s) && r.0.state == s.state
  {
    if s.pending.Some? then
      var n := s.pending.value;
      match Answer(s).ready
      case IoFailure => (Ask(s).(pending := None), Broke)
      case NotReady => (Ask(s), Blocked)
      case Ready => (Write(Ask(s), GoAwayOut(n.id, n.reason)).(pending := None), Sent(n.reason))
    else if s.closeNow && s.goingAway.Some? then (s, Sent(s.goingAway.value.reason))
    else (s, Idle)
  }

  /** A PING is answered. */
  function PongOn(s: Snap): (r: (Snap, Readiness))
    ensures Left(r.0) <= Left(s) && r.0.state == s.state
  {
    if s.pong.None? then (s, Ready)
    else
      match Answer(s).ready
      case IoFailure => (Ask(s).(pong := None), IoFailure)
      case NotReady => (Ask(s), NotReady)
      case Ready => (Write(Ask(s), PongOut(s.pong.value)).(pong := None), Ready)
  }

  /** The shutdown PING goes out, or a PING of the user. */
  function PingOn(s: Snap): (r: (Snap, Readiness))
    ensures Left(r.0) <= Left(s) && r.0.state == s.state
  {
    var t := Answer(s);
    if s.ping.Some? && s.ping.value.sent then (s, Ready)
    else if s.ping.None? && !t.userPing then (Ask(s), Ready)
    else if !t.ready.Ready? then (Ask(s), t.ready)
    else if s.ping.None? then (Write(Ask(s), PingOut(USER)), Ready)
    else (Write(Ask(s), PingOut(s.ping.value.payload)).(ping := Some(s.ping.value.(sent := true))), Ready)
  }

  function ExchangeOf(s: Snap): (x: S.Exchange) {
    S.Exchange(s.remote, s.local, s.w.script, s.w.buffered)
  }

  function WithExchange(s: Snap, x: S.Exchange): (r: Snap) {
    s.(remote := x.remote, local := x.local, w := s.w.(script := x.script, buffered := x.out))
  }

  /** The peer's SETTINGS are acknowledged, then ours go out. */
  function SettingsOn(s: Snap): (r: (Snap, S.Outcome))
    ensures r.0.state == s.state
    ensures Left(r.0) <= Left(s) && (r.1.Faulted? ==> Left(r.0) < Left(s))
  {
    var (x, r) := S.Send(ExchangeOf(s));
    (WithExchange(s, x), r)
  }

  function AsOutcome(r: Readiness): (o: S.Outcome) {
    match r case Ready => S.Done case NotReady => S.Blocked case IoFailure => S.Broke
  }

  /** Everything owed goes out; refusals, which come last, are the stream layer's to send. */
  function ReadyOn(s: Snap): (r: (Snap, S.Outcome))
    ensures r.0.state == s.state
    ensures Left(r.0) <= Left(s) && (r.1.Faulted? ==> Left(r.0) < Left(s))
  {
    var (s1, pong) := PongOn(s);
    if !pong.Ready? then (s1, AsOutcome(pong))
    else
      var (s2, ping) := PingOn(s1);
      if !ping.Ready? then (s2, AsOutcome(ping))
      else
        var (s3, settings) := SettingsOn(s2);
        if !settings.Done? then (s3, settings) else (Ask(s3), AsOutcome(Answer(s3).ready))
  }

  /** A frame is taken in. */
  function RecvOn(s: Snap, frame: In, answer: Option<Fault>, settingsFault: Option<nat>): (r: (Snap, Option<Fault>))
    ensures Left(r.0) == Left(s) && r.0.state == s.state
  {
    match frame
    case StreamIn(id) => (if s.lastId < id <= s.maxId then s.(lastId := id) else s, answer)
    case SettingsIn(ack, params) =>
      if !ack then (s.(remote := Some(params)), None)
      else if !s.local.WaitingAck? then (s, Some(ConnFault(PROTOCOL_ERROR)))
      else if settingsFault.Some? then (s, Some(ConnFault(settingsFault.value)))
      else (s.(local := S.Synced), None)
    case GoAwayIn(id, reason) => (if answer.None? then s.(error := Some(Notice(id, reason))) else s, answer)
    case PingIn(ack, payload) =>
      if !ack then (s.(pong := Some(payload)), None)
      else if s.ping.None? || s.ping.value.payload != payload then (s, None)
      else
        var n := Some(Notice(s.lastId, NO_ERROR));
        (s.(ping := None, maxId := s.lastId, goingAway := n, pending := n), None)
    case PriorityIn => (s, None)
  }

  function Hear(s: Snap): (r: Snap)
    ensures Left(r) <= Left(s) && (!NextEvent(s.w.incoming).Nothing? ==> Left(r) < Left(s))
  {
    s.(w := s.w.(incoming := Spend(s.w.incoming), log := s.w.log + FrameOf(NextEvent(s.w.incoming))))
  }

  /** The next frame is read, if there is one. */
  function ReadOn(s: Snap): (r: (Snap, Option<Poll2Result>))
    ensures r.0.state == s.state
    ensures Left(r.0) <= Left(s) && (r.1.None? || r.1.value.Failed? ==> Left(r.0) < Left(s))
  {
    match NextEvent(s.w.incoming)
    case Nothing => (Hear(s), Some(Pending))
    case Eof => (Hear(s), Some(Finished))
    case Broken(fault) => (Hear(s), Some(Failed(fault)))
    case Arrived(frame, answer, settingsFault) =>
      var (s', fault) := RecvOn(Hear(s), frame, answer, settingsFault);
      (s', if fault.Some? then Some(Failed(fault.value)) else None)
  }

  predicate ShouldClose(s: Snap) {
    s.closeNow && s.pending.None?
  }

  /** GOAWAY first, then what is owed, then one frame. */
  function RoundOn(s: Snap): (r: (Snap, Option<Poll2Result>))
    ensures r.0.state == s.state
    ensures Left(r.0) <= Left(s) && (r.1.None? ==> Left(r.0) < Left(s))
  {
    var (s1, p) := GoAwayOn(s);
    if p.Broke? then (s1, Some(Failed(IoFault)))
    else if p.Blocked? then (s1, Some(Pending))
    else if p.Sent? && ShouldClose(s1) then
      (s1, Some(if s1.isUserInitiated then Finished else Failed(ConnFault(p.reason))))
    else
      var (s2, ready) := ReadyOn(s1);
      match ready
      case Broke => (s2, Some(Failed(IoFault)))
      case Blocked => (s2, Some(Pending))
      case Faulted(reason) => (s2, Some(Failed(ConnFault(reason))))
      case Done => ReadOn(s2)
  }

  /** Rounds, until one ends the loop. */
  function Poll2On(s: Snap): (r: (Snap, Poll2Result))
    ensures Left(r.0) <= Left(s) && r.0.state == s.state
    decreases Left(s)
  {
    var (s', r) := RoundOn(s);
    if r.Some? then (s', r.value) else Poll2On(s')
  }

  // ----- closing -----

  /** Closing at once announces the last stream processed, unless that was announced before. */
  function CloseOn(s: Snap, reason: nat): (r: Snap)
    ensures r.closeNow && r.goingAway == Some(Notice(s.lastId, reason)) && r.w == s.w
  {
    var n := Some(Notice(s.lastId, reason));
    if s.goingAway == n then s.(closeNow := true) else s.(closeNow := true, goingAway := n, pending := n)
  }

  function ShutDownOn(s: Snap): (r: Snap)
    ensures r.goingAway.Some? && r.w == s.w
  {
    var n := Some(Notice(MAX_STREAM_ID, NO_ERROR));
    if s.goingAway.Some? then s
    else s.(maxId := MAX_STREAM_ID, goingAway := n, pending := n, ping := Some(PendingPing(SHUTDOWN, false)))
  }

  function ConfigureOn(s: Snap, params: Params): (r: Snap)
    ensures r.w == s.w
  {
    if s.local.Synced? then s.(local := S.ToSend(params)) else s
  }

  /** What an outcome means; false on an I/O error. */
  function HandleOn(s: Snap, result: Poll2Result): (r: (Snap, bool))
    requires !result.Pending?
    ensures r.0.w == s.w && (r.1 <==> result != Failed(IoFault))
  {
    match result
    case Finished => (s.(state := Closing(NO_ERROR)), true)
    case Failed(ConnFault(reason)) =>
      if s.goingAway.Some? && s.goingAway.value.reason == reason then (s.(state := Closing(reason)), true)
      else (CloseOn(s, reason), true)
    case Failed(StreamFault) => (s, true)
    case Failed(IoFault) => (s, false)
  }

  predicate ShouldCloseOnIdle(s: Snap) {
    !s.closeNow && s.goingAway.Some? && s.goingAway.value.id != MAX_STREAM_ID
  }

  /** One step of an open connection; `None` to go on. */
  function OpenOn(s: Snap): (r: (Snap, Option<bool>)) {
    var (s1, result) := Poll2On(s);
    if result.Pending? then
      var t, s2 := Answer(s1), Ask(s1);
      match t.ready
      case IoFailure => (s2, Some(false))
      case NotReady => (s2, Some(true))
      case Ready =>
        if (s2.error.Some? || ShouldCloseOnIdle(s2)) && !t.hasStreams then (CloseOn(s2, NO_ERROR), None)
        else (s2, Some(true))
    else
      var (s2, ok) := HandleOn(s1, result);
      (s2, if ok then None else Some(false))
  }

  function Rank(c: ConnState): (n: nat) {
    match c case Open => 2 case Closing(_) => 1 case Closed(_) => 0
  }

  /** What a round that fails has used, or why it may end without using anything. */
  ghost predicate Settles(s: Snap, r: Poll2Result, left: nat) {
    r.Failed? && !r.fault.IoFault? ==>
      Left(s) < left || (s.goingAway.Some? && r.fault == ConnFault(s.goingAway.value.reason))
  }

  lemma RoundSettles(s: Snap)
    ensures var (s', r) := RoundOn(s); r.Some? ==> Settles(s', r.value, Left(s))
  {
    hide ReadyOn, ReadOn;
  }

  lemma {:induction false} Poll2Settles(s: Snap)
    ensures Settles(Poll2On(s).0, Poll2On(s).1, Left(s))
    decreases Left(s)
  {
    hide RoundOn;
    RoundSettles(s);
    var (s', r) := RoundOn(s);
    if r.None? {
      Poll2Settles(s');
    }
  }

  lemma OpenShrinks(s: Snap)
    requires s.state.Open?
    ensures var (s', r) := OpenOn(s);
            r.None? ==> Left(s') < Left(s) || (Left(s') <= Left(s) && s'.state.Closing?)
  {
    hide Poll2On;
    Poll2Settles(s);
  }

  /** Advances the connection until it is closed, has to wait or has failed; false on an I/O error. */
  function PollOn(s: Snap): (r: (Snap, bool))
    decreases Left(s), Rank(s.state)
  {
    match s.state
    case Open =>
      OpenShrinks(s);
      var (s', r) := OpenOn(s);
      if r.Some? then (s', r.value) else PollOn(s')
    case Closing(reason) =>
      (match Answer(s).ready
       case IoFailure => (Ask(s), false)
       case NotReady => (Ask(s), true)
       case Ready => PollOn(Ask(s).(state := Closed(reason))))
    case Closed(_) => (s, true)
  }

  function CallOn(s: Snap, call: UserCall): (r: (Snap, bool)) {
    match call
    case Polling => PollOn(s)
    case Abort(reason) => (CloseOn(s, reason).(isUserInitiated := true), true)
    case ShutDown => (ShutDownOn(s), true)
    case NoStreamsLeft => (CloseOn(s, NO_ERROR), true)
    case Configure(params) => (ConfigureOn(s, params), true)
  }

  /** Any run of polls and user calls, up to the first I/O error. */
  function DriveOn(s: Snap, calls: seq<UserCall>): (r: (Snap, bool)) {
    if calls == [] then (s, true)
    else
      var (s', ok) := DriveOn(s, calls[..|calls| - 1]);
      if ok then CallOn(s', calls[|calls| - 1]) else (s', false)
  }
}

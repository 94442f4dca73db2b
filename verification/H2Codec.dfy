/**
 Control frames and the world a connection lives in.

 What the socket and the stream layer answer is a script of turns, and what the peer sends is a
 list of events: each question takes one of them, and when there is none left the answer is "not yet".
 */
module H2Codec {
  import opened Wrappers
  import opened Octets
  import opened Supply

  const MAX_STREAM_ID := 0x7fff_ffff
  const NO_ERROR := 0
  const PROTOCOL_ERROR := 1

  const SHUTDOWN: Bytes := [0x0b, 0x7b, 0xa2, 0xf0, 0x8b, 0x9b, 0xfe, 0x54]
  const USER: Bytes := [0x3b, 0x7c, 0xdb, 0x7a, 0x0b, 0x87, 0x16, 0xb4]

  /** Settings parameters by identifier. */
  type Params = map<nat, nat>

  /** Frames the control layer writes. */
  datatype Out =
    | SettingsAck
    | SettingsOut(params: Params)
    | PongOut(payload: Bytes)
    | PingOut(payload: Bytes)
    | GoAwayOut(id: nat, reason: nat)

  /** Frames that arrive; those of streams are told apart only by the stream they open. */
  datatype In =
    | StreamIn(id: nat)
    | SettingsIn(ack: bool, params: Params)
    | GoAwayIn(id: nat, reason: nat)
    | PingIn(ack: bool, payload: Bytes)
    | PriorityIn

  /** A connection error, a stream error or an I/O error. */
  datatype Fault = ConnFault(reason: nat) | StreamFault | IoFault

  datatype Readiness = Ready | NotReady | IoFailure

  /** What reading gives; a frame comes with what the stream layer makes of it. */
  datatype Event =
    | Nothing
    | Arrived(frame: In, fault: Option<Fault>, settingsFault: Option<nat>)
    | Eof
    | Broken(error: Fault)

  /** One answer of the socket and the stream layer. */
  datatype Turn = Turn(ready: Readiness, settingsFault: Option<nat>, userPing: bool, hasStreams: bool)

  const QUIET := Turn(NotReady, None, false, true)

  /** The answer a script gives next; when there is none left it is "not yet". */
  function Next(script: Source<Turn>): (t: Turn) {
    if script.left == [] then QUIET else script.left[0]
  }

  function NextEvent(incoming: Source<Event>): (e: Event) {
    if incoming.left == [] then Nothing else incoming.left[0]
  }

  // ----- reading a log -----

  /** The items that a log's entries contribute, in order. */
  function Collect<T, U>(pick: T -> seq<U>, log: seq<T>): (r: seq<U>) {
    if log == [] then [] else Collect(pick, log[..|log| - 1]) + pick(log[|log| - 1])
  }

  lemma CollectPush<T, U>(pick: T -> seq<U>, log: seq<T>, x: T)
    ensures Collect(pick, log + [x]) == Collect(pick, log) + pick(x)
  {
    assert (log + [x])[..|log|] == log;
  }

  function PongOf(f: Out): (r: seq<Bytes>) {
    if f.PongOut? then [f.payload] else []
  }

  function GoAwayIdOf(f: Out): (r: seq<nat>) {
    if f.GoAwayOut? then [f.id] else []
  }

  function AckOf(f: Out): (r: seq<()>) {
    if f.SettingsAck? then [()] else []
  }

  function SettingsOf(f: Out): (r: seq<Params>) {
    if f.SettingsOut? then [f.params] else []
  }

  /** A PING that must be answered. */
  function PingOf(f: In): (r: seq<Bytes>) {
    if f.PingIn? && !f.ack then [f.payload] else []
  }

  function RemoteOf(f: In): (r: seq<Params>) {
    if f.SettingsIn? && !f.ack then [f.params] else []
  }

  function AckIn(f: In): (r: seq<()>) {
    if f.SettingsIn? && f.ack then [()] else []
  }

  ghost predicate NonIncreasing(ids: seq<nat>) {
    forall i, j :: 0 <= i < j < |ids| ==> ids[j] <= ids[i]
  }

  // ----- how the world goes on -----

  /** Everything a connection does to the world: answers and events used up, frames written and taken in. */
  datatype World = World(script: Source<Turn>, incoming: Source<Event>, buffered: seq<Out>, log: seq<In>)

  function FrameOf(e: Event): (r: seq<In>) {
    if e.Arrived? then [e.frame] else []
  }

  function FramesIn(es: seq<Event>): (r: seq<In>) {
    if es == [] then [] else FrameOf(es[0]) + FramesIn(es[1..])
  }

  lemma {:induction false} FramesInAppend(a: seq<Event>, b: seq<Event>)
    ensures FramesIn(a + b) == FramesIn(a) + FramesIn(b)
  {
    if a == [] {
      assert a + b == b;
    } else {
      assert (a + b)[1..] == a[1..] + b;
      FramesInAppend(a[1..], b);
    }
  }

  /** Answers and events are used in order; frames are only added, and those taken in are those that arrived. */
  ghost predicate Advances(w: World, w': World) {
    && Goes(w.script, w'.script) && Goes(w.incoming, w'.incoming)
    && w.buffered <= w'.buffered
    && w'.log == w.log + FramesIn(Given(w.incoming, w'.incoming))
  }

  /** The stream layer or the socket finds this fault in an event. */
  predicate EventRaises(e: Event, f: Fault) {
    || e == Broken(f)
    || (e.Arrived? && e.fault == Some(f))
    || (e.Arrived? && e.frame.SettingsIn? && e.frame.ack && f.ConnFault?
        && (f.reason == PROTOCOL_ERROR || e.settingsFault == Some(f.reason)))
  }

  predicate TurnRaises(t: Turn, f: Fault) {
    match f
    case IoFault => t.ready.IoFailure?
    case ConnFault(reason) => t.settingsFault == Some(reason)
    case StreamFault => false
  }

  ghost predicate SomeEvent(es: seq<Event>, f: Fault) {
    exists e :: e in es && EventRaises(e, f)
  }

  ghost predicate SomeTurn(turns: seq<Turn>, f: Fault) {
    exists t :: t in turns && TurnRaises(t, f)
  }

  ghost predicate SomeNotReady(turns: seq<Turn>) {
    exists t :: t in turns && t.ready.NotReady?
  }

  /** An answer or event used raised this fault. */
  ghost predicate FaultSeen(w: World, w': World, f: Fault)
    requires Advances(w, w')
  {
    SomeTurn(Given(w.script, w'.script), f) || SomeEvent(Given(w.incoming, w'.incoming), f)
  }

  /** The peer has ended the connection. */
  ghost predicate EndSeen(w: World, w': World)
    requires Advances(w, w')
  {
    Eof in Given(w.incoming, w'.incoming)
  }

  /** An answer used was "not yet", or there was none when asked. */
  ghost predicate Refusal(w: World, w': World)
    requires Advances(w, w')
  {
    Missed(w.script, w'.script) || SomeNotReady(Given(w.script, w'.script))
  }

  /** The peer was found silent: an event used was none, or there was none. */
  ghost predicate Silence(w: World, w': World)
    requires Advances(w, w')
  {
    Missed(w.incoming, w'.incoming) || Nothing in Given(w.incoming, w'.incoming)
  }

  ghost predicate Stalled(w: World, w': World)
    requires Advances(w, w')
  {
    Refusal(w, w') || Silence(w, w')
  }

  /** Everything that had come was read: the peer was found silent once, and nothing was read after that. */
  ghost predicate HeardOut(w: World, w': World)
    requires Advances(w, w')
  {
    FallsSilent(w.incoming, w'.incoming)
  }

  ghost predicate FallsSilent(s: Source<Event>, s': Source<Event>)
    requires Goes(s, s')
  {
    var es := Given(s, s');
    if Missed(s, s') then Nothing !in es && s'.missed == s.missed + 1
    else es != [] && es[|es| - 1] == Nothing && Nothing !in es[..|es| - 1]
  }

  /** How many questions were asked, and how many events were read. */
  function Asked(w: World, w': World): (n: int) {
    |w.script.left| - |w'.script.left| + w'.script.missed - w.script.missed
  }

  function Heard(w: World, w': World): (n: int) {
    |w.incoming.left| - |w'.incoming.left|
  }

  lemma AdvancesSame(w: World)
    ensures Advances(w, w) && !Stalled(w, w)
  {
    assert w.log + [] == w.log && w.script.left[..0] == [] && w.incoming.left[..0] == [];
  }

  lemma SomeAppend(turns: seq<Turn>, more: seq<Turn>, es: seq<Event>, more': seq<Event>, f: Fault)
    ensures SomeTurn(turns, f) || SomeTurn(more, f) ==> SomeTurn(turns + more, f)
    ensures SomeEvent(es, f) || SomeEvent(more', f) ==> SomeEvent(es + more', f)
  {
    if SomeTurn(turns, f) || SomeTurn(more, f) {
      var t :| (t in turns || t in more) && TurnRaises(t, f);
      assert t in turns + more;
    }
    if SomeEvent(es, f) || SomeEvent(more', f) {
      var e :| (e in es || e in more') && EventRaises(e, f);
      assert e in es + more';
    }
  }

  lemma NotReadyAppend(turns: seq<Turn>, more: seq<Turn>)
    ensures SomeNotReady(turns + more) <==> SomeNotReady(turns) || SomeNotReady(more)
  {
    if SomeNotReady(turns) || SomeNotReady(more) {
      var t :| (t in turns || t in more) && t.ready.NotReady?;
      assert t in turns + more;
    }
  }

  lemma AdvancesTwice(a: World, b: World, c: World)
    requires Advances(a, b) && Advances(b, c)
    ensures Advances(a, c)
    ensures forall f :: FaultSeen(a, b, f) || FaultSeen(b, c, f) ==> FaultSeen(a, c, f)
    ensures EndSeen(a, b) || EndSeen(b, c) ==> EndSeen(a, c)
    ensures Refusal(a, c) <==> Refusal(a, b) || Refusal(b, c)
    ensures Silence(a, c) <==> Silence(a, b) || Silence(b, c)
  {
    hide Given, SomeTurn, SomeEvent, SomeNotReady, FramesIn, Goes, Missed;
    GoesTwice(a.script, b.script, c.script);
    GoesTwice(a.incoming, b.incoming, c.incoming);
    var x, y := Given(a.script, b.script), Given(b.script, c.script);
    var u, v := Given(a.incoming, b.incoming), Given(b.incoming, c.incoming);
    FramesInAppend(u, v);
    assert (a.log + FramesIn(u)) + FramesIn(v) == a.log + (FramesIn(u) + FramesIn(v));
    NotReadyAppend(x, y);
    forall f | FaultSeen(a, b, f) || FaultSeen(b, c, f)
      ensures FaultSeen(a, c, f)
    {
      SomeAppend(x, y, u, v, f);
    }
  }

  /** Hearing the peer out, in two steps. */
  lemma HeardOutTwice(a: World, b: World, c: World)
    requires Advances(a, b) && Advances(b, c)
    ensures Advances(a, c)
    ensures !Silence(a, b) && HeardOut(b, c) ==> HeardOut(a, c)
    ensures HeardOut(a, b) && b.incoming == c.incoming ==> HeardOut(a, c)
  {
    hide Given, FramesIn, Goes, FallsSilent, Missed, SomeNotReady, SomeEvent, SomeTurn;
    AdvancesTwice(a, b, c);
    if !Silence(a, b) && HeardOut(b, c) {
      SilentAtLast(a.incoming, b.incoming, c.incoming);
    }
  }

  lemma SilentAtLast(a: Source<Event>, b: Source<Event>, c: Source<Event>)
    requires Goes(a, b) && Goes(b, c) && !Missed(a, b) && Nothing !in Given(a, b) && FallsSilent(b, c)
    ensures Goes(a, c) && FallsSilent(a, c)
  {
    hide Given, Goes;
    GoesTwice(a, b, c);
    NeverBack(a, b);
    var u, v := Given(a, b), Given(b, c);
    if v != [] {
      assert (u + v)[..|u + v| - 1] == u + v[..|v| - 1];
    }
  }

  lemma NeverBack<T>(a: Source<T>, b: Source<T>)
    requires Goes(a, b)
    ensures !Missed(a, b) ==> b.missed == a.missed
  {
  }

  /** One answer is used, and something may be written. */
  lemma TurnUsed(w: World, out: seq<Out>)
    ensures var w' := World(Spend(w.script), w.incoming, w.buffered + out, w.log);
            && Advances(w, w')
            && (forall f :: TurnRaises(Next(w.script), f) ==> FaultSeen(w, w', f))
            && (Refusal(w, w') <==> Next(w.script).ready.NotReady?)
            && !Silence(w, w') && Asked(w, w') == 1
  {
    assert w.log + [] == w.log && w.incoming.left[..0] == [];
    SpendGoes(w.script);
    if w.script.left != [] {
      assert w.script.left[0] in Given(w.script, Spend(w.script));
    }
  }

  /** One event is used, and its frame taken in. */
  lemma EventUsed(w: World)
    ensures var e := NextEvent(w.incoming);
            var w' := World(w.script, Spend(w.incoming), w.buffered, w.log + FrameOf(e));
            && Advances(w, w')
            && (forall f :: EventRaises(e, f) ==> FaultSeen(w, w', f))
            && (e.Eof? ==> EndSeen(w, w'))
            && !Refusal(w, w') && (Silence(w, w') <==> e.Nothing?) && (e.Nothing? ==> HeardOut(w, w'))
            && Asked(w, w') == 0 && 0 <= Heard(w, w') <= 1 && (!e.Nothing? ==> Heard(w, w') == 1)
  {
    assert w.script.left[..0] == [];
    SpendGoes(w.incoming);
    if w.incoming.left != [] {
      var e := w.incoming.left[0];
      assert FramesIn([e]) == FrameOf(e) + FramesIn([]);
      assert e in Given(w.incoming, Spend(w.incoming));
    }
  }

  class Codec {
    var script: Source<Turn>
    var incoming: Source<Event>
    var buffered: seq<Out>

    constructor (script: seq<Turn>, incoming: seq<Event>)
      ensures this.script == Source(script, 0) && this.incoming == Source(incoming, 0) && buffered == []
    {
      this.script, this.incoming, buffered := Source(script, 0), Source(incoming, 0), [];
    }

    method Draw() returns (t: Turn)
      modifies this`script
      ensures t == Next(old(script)) && script == Spend(old(script))
    {
      t := Next(script);
      script := Spend(script);
    }

    method Receive() returns (e: Event)
      modifies this`incoming
      ensures e == NextEvent(old(incoming)) && incoming == Spend(old(incoming))
    {
      e := NextEvent(incoming);
      incoming := Spend(incoming);
    }

    method Buffer(f: Out)
      modifies this`buffered
      ensures buffered == old(buffered) + [f]
    {
      buffered := buffered + [f];
    }
  }
}

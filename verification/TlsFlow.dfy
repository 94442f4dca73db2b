/**
 What one TLS flow does with chunks and keys, as functions.

 `Feed` is the deframe loop, `OnChunk` the arrival of a chunk and `Replay` the replay of the
 queue.  `TlsQueue` and `TlsTracker` hold the loops and the tracker that are proved to do this.
 */
module TlsFlow {
  import opened Wrappers
  import opened Octets
  import opened KeyDb
  import opened TlsHandshake

  /** One direction: octets that have been read but not yet cut into messages. */
  datatype Side = Side(deframer: Deframer, buffer: Bytes)

  datatype Flow = Flow(progress: Progress, client: Side, server: Side)

  const NEW_FLOW := Flow(START, Side(0, []), Side(0, []))

  function SideOf(f: Flow, toClient: bool): (s: Side) {
    if toClient then f.client else f.server
  }

  function WithSide(f: Flow, toClient: bool, s: Side): (f': Flow)
    ensures SideOf(f', toClient) == s && SideOf(f', !toClient) == SideOf(f, !toClient) && f'.progress == f.progress
  {
    if toClient then f.(client := s) else f.(server := s)
  }

  function Input(f: Flow, toClient: bool): (b: Bytes) {
    SideOf(f, toClient).buffer
  }

  function Read(f: Flow, toClient: bool, data: Bytes): (f': Flow) {
    WithSide(f, toClient, SideOf(f, toClient).(buffer := Input(f, toClient) + data))
  }

  /** An entry of the queue, with the direction it belongs to. */
  datatype Queued = Raw(toClient: bool, data: Bytes) | Held(toClient: bool, msg: Message)

  ghost predicate AllRaw(q: seq<Queued>) {
    forall i :: 0 <= i < |q| ==> q[i].Raw?
  }

  // ----- the deframe loop -----

  function RecordOf(p: Progress, toClient: bool): (r: RecordLayer) {
    if toClient then p.client else p.server
  }

  /** The record at the front of the input, if it is complete. */
  function Front(env: Env, t: Target, f: Flow, d: bool): (cut: Option<Cut>) {
    env.pop(t, d, RecordOf(f.progress, d), SideOf(f, d).deframer, Input(f, d))
  }

  /** The flow without that record. */
  function Behind(f: Flow, d: bool, cut: Cut): (f': Flow)
    requires cut.len <= |Input(f, d)|
    ensures Input(f', d) == Input(f, d)[cut.len..] && f'.progress == f.progress
  {
    WithSide(f, d, Side(cut.next, Input(f, d)[cut.len..]))
  }

  /** Why the loop ended: no complete record, a failure, a missing key, or a panic. */
  datatype End = Idle | Halted | Waits(msg: Message) | Panics(msg: Message)

  datatype Fed = Fed(flow: Flow, end: End)

  ghost function Feed(env: Env, keys: Keys, t: Target, f: Flow, d: bool): (r: Fed)
    requires PopOk(env)
    ensures |Input(r.flow, d)| <= |Input(f, d)|
    ensures r.end.Waits? ==> IsBlocked(r.flow)
    decreases |Input(f, d)|
  {
    match Front(env, t, f, d)
    case None => Fed(f, Idle)
    case Some(cut) =>
      var f' := Behind(f, d, cut);
      if cut.msg.None? then Feed(env, keys, t, f', d)
      else
        match DoMessage(env, keys, f'.progress, d, cut.msg.value)
        case Went(p, more) =>
          if more then Feed(env, keys, t, f'.(progress := p), d) else Fed(f'.(progress := p), Halted)
        case Blocked(p) => Fed(f'.(progress := p), Waits(cut.msg.value))
        case Died => Fed(f', Panics(cut.msg.value))
  }

  /** What is left of some octets after the first of them have gone. */
  ghost predicate EndOf(b: Bytes, rest: Bytes) {
    |rest| <= |b| && rest == b[|b| - |rest|..]
  }

  lemma EndTwice(a: Bytes, b: Bytes, c: Bytes)
    requires EndOf(a, b) && EndOf(b, c)
    ensures EndOf(a, c)
  {
  }

  /** What the deframe loop leaves: no complete record unless it stopped before, and only octets it was given. */
  ghost predicate Exhausts(env: Env, t: Target, f: Flow, d: bool, r: Fed) {
    && (r.end.Idle? ==> Front(env, t, r.flow, d).None?)
    && (r.end.Halted? ==> r.flow.progress.state.Failed?)
    && SideOf(r.flow, !d) == SideOf(f, !d) && EndOf(Input(f, d), Input(r.flow, d))
  }

  lemma ExhaustsAfter(env: Env, t: Target, f: Flow, d: bool, cut: Cut, p: Progress, r: Fed)
    requires cut.len <= |Input(f, d)| && Exhausts(env, t, Behind(f, d, cut).(progress := p), d, r)
    ensures Exhausts(env, t, f, d, r)
  {
    hide Front, EndOf;
    var f' := Behind(f, d, cut).(progress := p);
    assert EndOf(Input(f, d), Input(f', d)) by {
      CutEnds(f, d, cut);
    }
    EndTwice(Input(f, d), Input(f', d), Input(r.flow, d));
  }

  lemma CutEnds(f: Flow, d: bool, cut: Cut)
    requires cut.len <= |Input(f, d)|
    ensures EndOf(Input(f, d), Input(Behind(f, d, cut), d))
  {
  }

  lemma ExhaustsHere(env: Env, t: Target, f: Flow, d: bool, end: End)
    requires !end.Idle? && (end.Halted? ==> f.progress.state.Failed?)
    ensures Exhausts(env, t, f, d, Fed(f, end))
  {
  }

  lemma {:induction false} FeedExhausts(env: Env, keys: Keys, t: Target, f: Flow, d: bool)
    requires PopOk(env)
    ensures Exhausts(env, t, f, d, Feed(env, keys, t, f, d))
    decreases |Input(f, d)|
  {
    hide DoMessage, Exhausts, PopOk;
    var cut := Front(env, t, f, d);
    var r := Feed(env, keys, t, f, d);
    if cut.None? {
      NothingToRead(env, t, f, d);
    } else {
      PopFits(env, t, f, d);
      var f' := Behind(f, d, cut.value);
      if cut.value.msg.None? {
        FeedExhausts(env, keys, t, f', d);
        ExhaustsAfter(env, t, f, d, cut.value, f'.progress, r);
      } else {
        var a := DoMessage(env, keys, f'.progress, d, cut.value.msg.value);
        FailureHalts(env, keys, f'.progress, d, cut.value.msg.value);
        var p := if a.Died? then f'.progress else a.p;
        if a.Went? && a.more {
          FeedExhausts(env, keys, t, f'.(progress := p), d);
        } else {
          ExhaustsHere(env, t, f'.(progress := p), d, r.end);
        }
        ExhaustsAfter(env, t, f, d, cut.value, p, r);
      }
    }
  }

  lemma NothingToRead(env: Env, t: Target, f: Flow, d: bool)
    requires Front(env, t, f, d).None?
    ensures Exhausts(env, t, f, d, Fed(f, Idle))
  {
  }

  lemma PopFits(env: Env, t: Target, f: Flow, d: bool)
    requires PopOk(env) && Front(env, t, f, d).Some?
    ensures 0 < Front(env, t, f, d).value.len <= |Input(f, d)|
  {
  }

  lemma FailureHalts(env: Env, keys: Keys, p: Progress, d: bool, msg: Message)
    ensures var r := DoMessage(env, keys, p, d, msg); r.Went? && !r.more ==> r.p.state.Failed?
  {
  }

  // ----- a connection: its flow and its queue -----

  /** `Gone` after a panic. */
  datatype Conn = Conn(flow: Flow, queue: seq<Queued>) | Gone

  const NEW_CONN := Conn(NEW_FLOW, [])

  function IsBlocked(f: Flow): (b: bool) {
    f.progress.state.NeedKeys?
  }

  ghost function OnChunk(env: Env, keys: Keys, t: Target, c: Conn, d: bool, data: Bytes): (c': Conn)
    requires PopOk(env)
  {
    if c.Gone? then Gone
    else if IsBlocked(c.flow) then c.(queue := c.queue + [Raw(d, data)])
    else
      var r := Feed(env, keys, t, Read(c.flow, d, data), d);
      match r.end
      case Panics(_) => Gone
      case Waits(msg) => Conn(r.flow, c.queue + [Held(d, msg)])
      case _ => Conn(r.flow, c.queue)
  }

  /** Replays the queue from the front, until it is empty or a message lacks a key. */
  ghost function Replay(env: Env, keys: Keys, t: Target, f: Flow, q: seq<Queued>): (c: Conn)
    requires PopOk(env)
    decreases |q|
  {
    if q == [] then Conn(f, [])
    else
      match q[0]
      case Held(d, msg) =>
        (match DoMessage(env, keys, f.progress, d, msg)
         case Went(p, _) => Replay(env, keys, t, f.(progress := p), q[1..])
         case Blocked(p) => Conn(f.(progress := p), q)
         case Died => Gone)
      case Raw(d, data) =>
        if IsBlocked(f) then Conn(f, q)
        else
          var r := Feed(env, keys, t, Read(f, d, data), d);
          match r.end
          case Panics(_) => Gone
          case Waits(msg) => Conn(r.flow, [Held(d, msg)] + q[1..])
          case _ => Replay(env, keys, t, r.flow, q[1..])
  }

  ghost function OnKeys(env: Env, keys: Keys, t: Target, c: Conn): (c': Conn)
    requires PopOk(env)
  {
    if c.Gone? then Gone else Replay(env, keys, t, c.flow, c.queue)
  }
}

/**
 One TLS flow whose keys may arrive late.

 A flow that meets a message it has no keys for stops there.  The message and everything
 that arrives after it wait in a queue; a new key replays the queue from the front.
 */
module TlsQueue {
  import opened Wrappers
  import opened Octets
  import opened KeyDb
  import opened TlsHandshake
  import opened TlsFlow

  /** What has happened to a flow: octets arrived and cut, messages found and acted on. */
  datatype History = History(arrivedC: Bytes, arrivedS: Bytes, cutC: Bytes, cutS: Bytes,
                             found: seq<(bool, Message)>, acted: seq<(bool, Message)>)

  const NO_HISTORY := History([], [], [], [], [], [])

  function Arrived(h: History, d: bool): (b: Bytes) {
    if d then h.arrivedC else h.arrivedS
  }

  function CutOff(h: History, d: bool): (b: Bytes) {
    if d then h.cutC else h.cutS
  }

  function Arrive(h: History, d: bool, b: Bytes): (h': History) {
    if d then h.(arrivedC := h.arrivedC + b) else h.(arrivedS := h.arrivedS + b)
  }

  function CutMore(h: History, d: bool, b: Bytes): (h': History) {
    if d then h.(cutC := h.cutC + b) else h.(cutS := h.cutS + b)
  }

  /** Octets waiting in the queue, per direction. */
  function RawBytes(q: seq<Queued>, d: bool): (b: Bytes) {
    if q == [] then []
    else (if q[0].Raw? && q[0].toClient == d then q[0].data else []) + RawBytes(q[1..], d)
  }

  lemma {:induction false} RawPush(q: seq<Queued>, x: Queued, d: bool)
    ensures RawBytes(q + [x], d) == RawBytes(q, d) + (if x.Raw? && x.toClient == d then x.data else [])
  {
    if q == [] {
      assert q + [x] == [x];
    } else {
      var last := if x.Raw? && x.toClient == d then x.data else [];
      assert (q + [x])[1..] == q[1..] + [x] && (q + [x])[0] == q[0];
      RawPush(q[1..], x, d);
      var first := if q[0].Raw? && q[0].toClient == d then q[0].data else [];
      assert first + (RawBytes(q[1..], d) + last) == (first + RawBytes(q[1..], d)) + last;
    }
  }

  // ----- the invariant of one flow -----

  /** No octet is lost, repeated or out of order between arrival, input and queue. */
  ghost predicate Conserved(f: Flow, q: seq<Queued>, h: History) {
    ConservedIn(f, q, h, true) && ConservedIn(f, q, h, false)
  }

  ghost predicate ConservedIn(f: Flow, q: seq<Queued>, h: History, d: bool) {
    Arrived(h, d) == CutOff(h, d) + Input(f, d) + RawBytes(q, d)
  }

  /** The flow stands where the messages that acted lead. */
  ghost predicate AsIdeal(env: Env, keys: Keys, t: Target, p: Progress, h: History) {
    StateOk(env, t, p.state) && Ideal(env, keys, h.acted) == Some(Unblocked(p))
  }

  /** A flow between calls: blocked exactly when its queue is not empty, and then on the queue's head. */
  ghost predicate FlowOk(env: Env, keys: Keys, t: Target, f: Flow, q: seq<Queued>, h: History) {
    && Conserved(f, q, h) && AsIdeal(env, keys, t, f.progress, h)
    && (f.progress.state.NeedKeys? <==> q != [])
    && (q != [] ==> q[0].Held? && AllRaw(q[1..]) && Owned(env, t, Some(q[0].msg)))
    && h.found == h.acted + (if q != [] then [(q[0].toClient, q[0].msg)] else [])
  }

  /** A flow while its queue is replayed: not blocked, and only raw chunks are left. */
  ghost predicate FlowMid(env: Env, keys: Keys, t: Target, f: Flow, q: seq<Queued>, h: History) {
    && Conserved(f, q, h) && AsIdeal(env, keys, t, f.progress, h)
    && !f.progress.state.NeedKeys? && AllRaw(q) && h.found == h.acted
  }

  // ----- octets move, none is lost -----

  lemma Regroup(a: Bytes, b: Bytes, c: Bytes, d: Bytes)
    ensures a + b + (c + d) == a + (b + c) + d
    ensures a + (b + c) + d == (a + b) + c + d
  {
  }

  /** From the input to the record just cut. */
  lemma CutConserves(f: Flow, q: seq<Queued>, h: History, d: bool, n: nat, s: Side)
    requires Conserved(f, q, h) && n <= |Input(f, d)| && s.buffer == Input(f, d)[n..]
    ensures Conserved(WithSide(f, d, s), q, CutMore(h, d, Input(f, d)[..n]))
  {
  }

  /** From the wire to the end of the queue. */
  lemma ChunkWaits(f: Flow, q: seq<Queued>, h: History, d: bool, data: Bytes)
    requires Conserved(f, q, h)
    ensures Conserved(f, q + [Raw(d, data)], Arrive(h, d, data))
  {
    hide RawBytes;
    RawPush(q, Raw(d, data), true);
    RawPush(q, Raw(d, data), false);
    assert (CutOff(h, d) + Input(f, d) + RawBytes(q, d)) + data == CutOff(h, d) + Input(f, d) + (RawBytes(q, d) + data);
  }

  /** From the head of the queue to the input. */
  lemma ChunkReplayed(f: Flow, q: seq<Queued>, h: History)
    requires Conserved(f, q, h) && q != [] && q[0].Raw?
    ensures Conserved(Read(f, q[0].toClient, q[0].data), q[1..], h)
  {
    var d, data, rest := q[0].toClient, q[0].data, RawBytes(q[1..], q[0].toClient);
    RawHead(q);
    hide RawBytes;
    Regroup(CutOff(h, d), Input(f, d), data, rest);
  }

  lemma RawHead(q: seq<Queued>)
    requires q != []
    ensures q[0].Held? ==> forall d :: RawBytes(q, d) == RawBytes(q[1..], d)
    ensures q[0].Raw? ==> RawBytes(q, q[0].toClient) == q[0].data + RawBytes(q[1..], q[0].toClient)
    ensures q[0].Raw? ==> RawBytes(q, !q[0].toClient) == RawBytes(q[1..], !q[0].toClient)
  {
  }

  /** A message at the head of the queue holds no octets. */
  lemma HeadConserves(f: Flow, q: seq<Queued>, h: History, d: bool, msg: Message)
    ensures Conserved(f, [Held(d, msg)] + q, h) <==> Conserved(f, q, h)
  {
  }

  // ----- reading a chunk -----

  ghost predicate Grown(h: History, before: History) {
    h.arrivedC == before.arrivedC && h.arrivedS == before.arrivedS && before.acted <= h.acted && before.found <= h.found
  }

  /** The state after a turn: as between chunks, or blocked on the message just found. */
  ghost predicate AfterTurn(env: Env, keys: Keys, t: Target, f: Flow, q: seq<Queued>, h: History, d: bool,
                            blocked: Option<Message>) {
    && Conserved(f, q, h) && AsIdeal(env, keys, t, f.progress, h) && AllRaw(q)
    && (f.progress.state.NeedKeys? <==> blocked.Some?)
    && h.found == h.acted + (if blocked.Some? then [(d, blocked.value)] else [])
    && (blocked.Some? ==> Owned(env, t, blocked) && Starved(env, keys, f.progress, d, blocked.value))
  }

  lemma FoundKeeps(env: Env, keys: Keys, t: Target, f: Flow, q: seq<Queued>, h: History, d: bool, msg: Message)
    requires FlowMid(env, keys, t, f, q, h) && Owned(env, t, Some(msg))
    ensures var r := DoMessage(env, keys, f.progress, d, msg);
            var h' := h.(found := h.found + [(d, msg)]);
            && (r.Blocked? ==> AfterTurn(env, keys, t, f.(progress := r.p), q, h', d, Some(msg)))
            && (r.Went? ==>
                  AfterTurn(env, keys, t, f.(progress := r.p), q, h'.(acted := h.acted + [(d, msg)]), d, None))
            && (!r.Died? ==> Stays(f.progress.state, r.p.state))
  {
    RetryIsPure(env, keys, t, f.progress, d, msg);
    if DoMessage(env, keys, f.progress, d, msg).Went? {
      IdealStep(env, keys, h.acted, f.progress, d, msg);
    }
    hide DoMessage, Ideal, StateOk, Stays, Starved;
  }

  function WaitsFor(end: End): (msg: Option<Message>) {
    if end.Waits? then Some(end.msg) else None
  }

  /** Cuts one record and lets its message act; `end` tells why the loop ends, if it does. */
  method FeedOne(env: Env, keys: Keys, t: Target, flow: Flow, d: bool, ghost history: History, ghost q: seq<Queued>)
    returns (f: Flow, ghost h: History, end: Option<End>)
    requires EnvOk(env) && FlowMid(env, keys, t, flow, q, history)
    ensures end.None? ==> Feed(env, keys, t, flow, d) == Feed(env, keys, t, f, d) && |Input(f, d)| < |Input(flow, d)|
    ensures end.Some? ==> Feed(env, keys, t, flow, d) == Fed(f, end.value)
    ensures end.None? ==> AfterTurn(env, keys, t, f, q, h, d, None)
    ensures end.Some? && !end.value.Panics? ==> AfterTurn(env, keys, t, f, q, h, d, WaitsFor(end.value))
    ensures end.None? || !end.value.Panics? ==> Stays(flow.progress.state, f.progress.state)
    ensures Grown(h, history)
  {
    hide Conserved, DoMessage, Ideal, StateOk, Owned, Starved;
    var cut := Front(env, t, flow, d);
    if cut.None? {
      return flow, history, Some(Idle);
    }
    var n := cut.value.len;
    var side' := Side(cut.value.next, Input(flow, d)[n..]);
    CutConserves(flow, q, history, d, n, side');
    h := CutMore(history, d, Input(flow, d)[..n]);
    f := WithSide(flow, d, side');
    assert f == Behind(flow, d, cut.value);
    if cut.value.msg.None? {
      return f, h, None;
    }
    var msg := cut.value.msg.value;
    assert Owned(env, t, Some(msg));
    FoundKeeps(env, keys, t, f, q, h, d, msg);
    h := h.(found := h.found + [(d, msg)]);
    match DoMessage(env, keys, f.progress, d, msg)
    case Went(p, more) =>
      f, end := f.(progress := p), if more then None else Some(Halted);
      h := h.(acted := h.acted + [(d, msg)]);
    case Blocked(p) =>
      f, end := f.(progress := p), Some(Waits(msg));
    case Died =>
      end := Some(Panics(msg));
  }

  /** Cuts records until there is none, one fails, one needs keys, or one ends the program. */
  method FeedLoop(env: Env, keys: Keys, t: Target, flow: Flow, d: bool, ghost history: History, ghost q: seq<Queued>)
    returns (f: Flow, ghost h: History, end: End)
    requires EnvOk(env) && FlowMid(env, keys, t, flow, q, history)
    ensures Feed(env, keys, t, flow, d) == Fed(f, end)
    ensures !end.Panics? ==> AfterTurn(env, keys, t, f, q, h, d, WaitsFor(end))
    ensures !end.Panics? ==> Stays(flow.progress.state, f.progress.state)
    ensures Grown(h, history)
  {
    hide Conserved, DoMessage, Ideal, StateOk, Owned, PopOk, AsIdeal, Starved, Feed;
    f, h := flow, history;
    while true
      invariant FlowMid(env, keys, t, f, q, h) && Grown(h, history)
      invariant Feed(env, keys, t, flow, d) == Feed(env, keys, t, f, d)
      invariant Stays(flow.progress.state, f.progress.state)
      decreases |Input(f, d)|
    {
      var stop;
      f, h, stop := FeedOne(env, keys, t, f, d, h, q);
      if stop.Some? {
        return f, h, stop.value;
      }
    }
  }

  // ----- entering and leaving the blocked state -----

  /** A flow blocked while it read becomes a flow whose queue starts with the message. */
  lemma TurnEnds(env: Env, keys: Keys, t: Target, f: Flow, q: seq<Queued>, h: History, d: bool,
                 blocked: Option<Message>)
    requires AfterTurn(env, keys, t, f, q, h, d, blocked)
    ensures blocked.Some? ==> FlowOk(env, keys, t, f, [Held(d, blocked.value)] + q, h)
    ensures blocked.Some? ==> Starved(env, keys, f.progress, d, blocked.value)
    ensures blocked.None? ==> FlowMid(env, keys, t, f, q, h)
  {
  }

  /** The held message, tried again. */
  lemma HeldAgain(env: Env, keys: Keys, t: Target, f: Flow, q: seq<Queued>, h: History)
    requires FlowOk(env, keys, t, f, q, h) && q != []
    ensures var r := DoMessage(env, keys, f.progress, q[0].toClient, q[0].msg);
            && (r.Blocked? ==> r.p == f.progress && Starved(env, keys, f.progress, q[0].toClient, q[0].msg))
            && (!r.Died? ==> Stays(f.progress.state, r.p.state))
            && (r.Went? ==> FlowMid(env, keys, t, f.(progress := r.p), q[1..], h.(acted := h.found)))
  {
    var d, msg := q[0].toClient, q[0].msg;
    RetryIsPure(env, keys, t, f.progress, d, msg);
    if DoMessage(env, keys, f.progress, d, msg).Went? {
      IdealStep(env, keys, h.acted, f.progress, d, msg);
      assert q == [Held(d, msg)] + q[1..];
      HeadConserves(f, q[1..], h, d, msg);
    }
    hide DoMessage, Ideal, StateOk, Stays, Starved;
  }

  /** A queued chunk is read. */
  lemma RawAgain(env: Env, keys: Keys, t: Target, f: Flow, q: seq<Queued>, h: History)
    requires FlowMid(env, keys, t, f, q, h) && q != []
    ensures q[0].Raw? && FlowMid(env, keys, t, Read(f, q[0].toClient, q[0].data), q[1..], h)
  {
    hide Conserved, AsIdeal;
    ChunkReplayed(f, q, h);
  }

  /** More keys leave a flow in order. */
  lemma KeysArrive(env: Env, keys: Keys, more: Keys, t: Target, f: Flow, q: seq<Queued>, h: History)
    requires FlowOk(env, keys, t, f, q, h) && Extends(more, keys)
    ensures FlowOk(env, more, t, f, q, h)
  {
    hide Conserved, Extends;
    IdealExtends(env, keys, more, h.acted);
  }
}

/** The tracker of all TLS flows, with one queue per client random. */
module TlsTracker {
  import opened Wrappers
  import opened Octets
  import opened KeyDb
  import opened TlsHandshake
  import opened TlsMeaning
  import opened TlsFlow
  import opened TlsQueue

  /** A queue as stored: each entry with the connection it belongs to. */
  type Line = seq<(Target, Queued)>

  function Items(line: Line): (q: seq<Queued>)
    ensures |q| == |line| && forall i :: 0 <= i < |q| ==> q[i] == line[i].1
  {
    seq(|line|, i requires 0 <= i < |line| => line[i].1)
  }

  predicate AllFor(line: Line, t: Target) {
    forall i :: 0 <= i < |line| ==> line[i].0 == t
  }

  // ----- one chunk, one queue entry -----

  /** What becomes of a chunk or a queue entry: taken in, to be tried again, or the end of the program. */
  datatype Taken = Through | Retry(x: Queued) | Crashed

  function TakenAs(end: End, d: bool): (r: Taken) {
    match end
    case Idle => Through
    case Halted => Through
    case Waits(msg) => Retry(Held(d, msg))
    case Panics(_) => Crashed
  }

  /** Reads a chunk into a flow, or hands it back if the flow is blocked. */
  method InnerOnData(env: Env, keys: Keys, t: Target, flow: Flow, d: bool, data: Bytes, ghost history: History,
                     ghost q: seq<Queued>)
    returns (f: Flow, ghost h: History, r: Taken)
    requires EnvOk(env)
    requires !IsBlocked(flow) ==> FlowMid(env, keys, t, Read(flow, d, data), q, history)
    ensures Grown(h, history)
    ensures IsBlocked(flow) ==> f == flow && h == history && r == Retry(Raw(d, data))
    ensures !IsBlocked(flow) ==>
              var fed := Feed(env, keys, t, Read(flow, d, data), d);
              f == fed.flow && r == TakenAs(fed.end, d)
    ensures !IsBlocked(flow) && !r.Crashed? ==> Stays(flow.progress.state, f.progress.state)
    ensures !IsBlocked(flow) && r.Through? ==> FlowMid(env, keys, t, f, q, h)
    ensures !IsBlocked(flow) && r.Retry? ==> FlowOk(env, keys, t, f, [r.x] + q, h) && Stuck(env, keys, f, r.x)
  {
    hide FlowMid, FlowOk, Stays, PopOk, Starved, AfterTurn, Feed;
    if IsBlocked(flow) {
      return flow, history, Retry(Raw(d, data));
    }
    f := Read(flow, d, data);
    assert f.progress == flow.progress;
    var end;
    f, h, end := FeedLoop(env, keys, t, f, d, history, q);
    if !end.Panics? {
      TurnEnds(env, keys, t, f, q, h, d, WaitsFor(end));
    }
    r := TakenAs(end, d);
  }

  /** The entry is a message that its flow has no keys for. */
  ghost predicate Stuck(env: Env, keys: Keys, f: Flow, x: Queued) {
    x.Held? && Starved(env, keys, f.progress, x.toClient, x.msg)
  }

  /** Replays the entry at the head of the queue. */
  method ProcessQueued(env: Env, keys: Keys, t: Target, flow: Flow, item: Queued, ghost history: History,
                       ghost rest: seq<Queued>)
    returns (f: Flow, ghost h: History, r: Taken)
    requires EnvOk(env)
    requires item.Held? ==> FlowOk(env, keys, t, flow, [item] + rest, history)
    requires item.Raw? ==> FlowMid(env, keys, t, flow, [item] + rest, history)
    ensures Grown(h, history)
    ensures TlsFlow.Replay(env, keys, t, flow, [item] + rest)
            == match r {
              case Through => TlsFlow.Replay(env, keys, t, f, rest)
              case Retry(x) => Conn(f, [x] + rest)
              case Crashed => Gone
            }
    ensures !r.Crashed? ==> Stays(flow.progress.state, f.progress.state)
    ensures r.Through? ==> FlowMid(env, keys, t, f, rest, h)
    ensures r.Retry? ==> FlowOk(env, keys, t, f, [r.x] + rest, h) && Stuck(env, keys, f, r.x)
  {
    hide Conserved, AsIdeal, Stays, PopOk, Starved, DoMessage, AfterTurn, Feed;
    assert ([item] + rest)[1..] == rest;
    match item
    case Raw(d, data) =>
      RawAgain(env, keys, t, flow, [item] + rest, history);
      f, h, r := InnerOnData(env, keys, t, flow, d, data, history, rest);
    case Held(d, msg) =>
      HeldAgain(env, keys, t, flow, [item] + rest, history);
      match DoMessage(env, keys, flow.progress, d, msg) {
        case Went(p, _) => f, h, r := flow.(progress := p), history.(acted := history.found), Through;
        case Blocked(p) => f, h, r := flow.(progress := p), history, Retry(item);
        case Died => f, h, r := flow, history, Crashed;
      }
  }

  // ----- all flows -----

  type Flows = map<Target, Flow>
  type Lines = map<ClientRandom, Line>
  type Histories = map<Target, History>

  /** What waits for the keys of a flow. */
  function WaitingFor(f: Flow, queued: Lines): (line: Line) {
    if f.progress.state.NeedKeys? && f.progress.state.random in queued then queued[f.progress.state.random] else []
  }

  /** A flow with what waits for its keys. */
  function ConnOf(f: Flow, queued: Lines): (c: Conn)
    ensures c.Conn? && c.flow == f
  {
    Conn(f, Items(WaitingFor(f, queued)))
  }

  ghost predicate FlowValid(env: Env, keys: Keys, f: Flow, queued: Lines, h: History, t: Target) {
    AllFor(WaitingFor(f, queued), t) && FlowOk(env, keys, t, f, Items(WaitingFor(f, queued)), h)
  }

  ghost predicate AllFlows(env: Env, keys: Keys, flows: Flows, queued: Lines, hist: Histories) {
    flows.Keys == hist.Keys && forall t :: t in flows ==> FlowValid(env, keys, flows[t], queued, hist[t], t)
  }

  /** A queue that is not empty belongs to the flow blocked on its client random. */
  ghost predicate QueueOwned(env: Env, flows: Flows, queued: Lines, r: ClientRandom) {
    r in queued && queued[r] != [] ==>
      var t := env.owner(r);
      t in flows && flows[t].progress.state.NeedKeys? && flows[t].progress.state.random == r
  }

  ghost predicate AllQueues(env: Env, flows: Flows, queued: Lines) {
    forall r :: QueueOwned(env, flows, queued, r)
  }

  /** A flow is blocked on a client random exactly when that random's queue is not empty. */
  lemma BlockedIffQueued(env: Env, keys: Keys, flows: Flows, queued: Lines, hist: Histories, t: Target, r: ClientRandom)
    requires AllFlows(env, keys, flows, queued, hist) && AllQueues(env, flows, queued)
    requires t in flows && env.owner(r) == t
    ensures flows[t].progress.state.NeedKeys? && flows[t].progress.state.random == r <==> r in queued && queued[r] != []
    ensures r in queued && queued[r] != [] ==>
      AllFor(queued[r], t) && Items(queued[r])[0].Held? && AllRaw(Items(queued[r])[1..])
  {
    hide Conserved, AsIdeal, Owned;
    assert FlowValid(env, keys, flows[t], queued, hist[t], t);
    assert QueueOwned(env, flows, queued, r);
  }

  /** Queues agree except for randoms owned by one flow. */
  ghost predicate AgreeElsewhere(env: Env, queued: Lines, queued': Lines, t: Target) {
    forall r :: env.owner(r) != t ==> (r in queued <==> r in queued') && (r in queued ==> queued[r] == queued'[r])
  }

  lemma OtherFlow(env: Env, keys: Keys, t: Target, f: Flow, queued: Lines, queued': Lines, h: History, changed: Target)
    requires t != changed && AgreeElsewhere(env, queued, queued', changed) && FlowValid(env, keys, f, queued, h, t)
    ensures FlowValid(env, keys, f, queued', h, t) && ConnOf(f, queued') == ConnOf(f, queued)
  {
  }

  /** The queues a flow owns are empty, except for the one it is blocked on. */
  ghost predicate OwnQueues(env: Env, t: Target, f: Flow, queued: Lines) {
    forall r :: r in queued && env.owner(r) == t && queued[r] != [] ==>
      f.progress.state.NeedKeys? && f.progress.state.random == r
  }

  lemma ReplacedFlows(env: Env, keys: Keys, flows: Flows, queued: Lines, hist: Histories, t: Target, f: Flow,
                      queued': Lines, h: History)
    requires AllFlows(env, keys, flows, queued, hist)
    requires AgreeElsewhere(env, queued, queued', t) && FlowValid(env, keys, f, queued', h, t)
    ensures AllFlows(env, keys, flows[t := f], queued', hist[t := h])
  {
    hide FlowValid, AgreeElsewhere;
    var flows', hist' := flows[t := f], hist[t := h];
    forall t' | t' in flows'
      ensures FlowValid(env, keys, flows'[t'], queued', hist'[t'], t')
    {
      if t' != t {
        OtherFlow(env, keys, t', flows[t'], queued, queued', hist[t'], t);
      }
    }
  }

  /** What the other flows wait for stays as it was. */
  lemma OthersWait(env: Env, keys: Keys, flows: Flows, queued: Lines, hist: Histories, t: Target, queued': Lines)
    requires AllFlows(env, keys, flows, queued, hist) && AgreeElsewhere(env, queued, queued', t)
    ensures SameWaits(flows, queued, queued', t)
  {
    hide FlowValid, AgreeElsewhere, ConnOf;
    forall u | u in flows && u != t
      ensures ConnOf(flows[u], queued') == ConnOf(flows[u], queued)
    {
      OtherFlow(env, keys, u, flows[u], queued, queued', hist[u], t);
    }
  }

  ghost predicate SameWaits(flows: Flows, queued: Lines, queued': Lines, t: Target) {
    forall u :: u in flows && u != t ==> ConnOf(flows[u], queued') == ConnOf(flows[u], queued)
  }

  lemma ReplacedQueues(env: Env, flows: Flows, queued: Lines, t: Target, f: Flow, queued': Lines)
    requires AllQueues(env, flows, queued) && AgreeElsewhere(env, queued, queued', t) && OwnQueues(env, t, f, queued')
    ensures AllQueues(env, flows[t := f], queued')
  {
    var flows' := flows[t := f];
    forall r
      ensures QueueOwned(env, flows', queued', r)
    {
      assert QueueOwned(env, flows, queued, r);
    }
  }

  /** Replacing one flow and the queues it owns leaves the others as they were. */
  lemma Replaced(env: Env, keys: Keys, flows: Flows, queued: Lines, hist: Histories, t: Target, f: Flow,
                 queued': Lines, h: History)
    requires AllFlows(env, keys, flows, queued, hist) && AllQueues(env, flows, queued)
    requires AgreeElsewhere(env, queued, queued', t) && FlowValid(env, keys, f, queued', h, t)
             && OwnQueues(env, t, f, queued')
    ensures AllFlows(env, keys, flows[t := f], queued', hist[t := h]) && AllQueues(env, flows[t := f], queued')
    ensures SameWaits(flows, queued, queued', t)
  {
    hide FlowValid, AgreeElsewhere, AllFlows, AllQueues, OwnQueues, SameWaits;
    OthersWait(env, keys, flows, queued, hist, t, queued');
    ReplacedFlows(env, keys, flows, queued, hist, t, f, queued', h);
    ReplacedQueues(env, flows, queued, t, f, queued');
  }

  /**
   Every octet that arrived was cut, is in the input or waits in the queue, in order; every
   message found has acted once, in order, except one that waits; and the flow stands where these
   messages lead, whatever keys are added.
   */
  lemma EachMessageActsOnce(env: Env, keys: Keys, more: Keys, flows: Flows, queued: Lines, hist: Histories, t: Target,
                            d: bool)
    requires AllFlows(env, keys, flows, queued, hist) && t in flows && Extends(more, keys)
    ensures Arrived(hist[t], d)
            == CutOff(hist[t], d) + Input(flows[t], d) + RawBytes(Items(WaitingFor(flows[t], queued)), d)
    ensures hist[t].acted <= hist[t].found
            && |hist[t].found| - |hist[t].acted| == (if flows[t].progress.state.NeedKeys? then 1 else 0)
    ensures Ideal(env, more, hist[t].acted) == Some(Unblocked(flows[t].progress))
    ensures Stands(env, keys, hist[t].acted, Unblocked(flows[t].progress))
  {
    hide Extends, Stands;
    assert FlowValid(env, keys, flows[t], queued, hist[t], t);
    IdealExtends(env, keys, more, hist[t].acted);
    IdealStands(env, keys, hist[t].acted);
  }

  /** What the tracker knows of a connection, which may be new. */
  lemma FlowKnown(env: Env, keys: Keys, flows: Flows, queued: Lines, hist: Histories, t: Target)
    requires AllFlows(env, keys, flows, queued, hist) && AllQueues(env, flows, queued)
    ensures FlowValid(env, keys, FlowOf(flows, t), queued, HistoryOf(hist, t), t)
            && OwnQueues(env, t, FlowOf(flows, t), queued)
  {
    hide FlowValid;
    if t !in flows {
      NewFlowValid(env, keys, queued, t);
    }
    forall r | r in queued && env.owner(r) == t && queued[r] != []
      ensures FlowOf(flows, t).progress.state.NeedKeys? && FlowOf(flows, t).progress.state.random == r
    {
      assert QueueOwned(env, flows, queued, r);
    }
  }

  lemma NewFlowValid(env: Env, keys: Keys, queued: Lines, t: Target)
    ensures FlowValid(env, keys, NEW_FLOW, queued, NO_HISTORY, t)
  {
  }

  function FlowOf(flows: Flows, t: Target): (f: Flow) {
    if t in flows then flows[t] else NEW_FLOW
  }

  ghost function HistoryOf(hist: Histories, t: Target): (h: History) {
    if t in hist then hist[t] else NO_HISTORY
  }

  /** A chunk for a blocked flow goes to the end of its queue. */
  lemma ChunkQueued(env: Env, keys: Keys, f: Flow, queued: Lines, h: History, t: Target, d: bool, data: Bytes)
    requires FlowValid(env, keys, f, queued, h, t) && OwnQueues(env, t, f, queued) && f.progress.state.NeedKeys?
    ensures var queued' := Pushed(queued, f.progress.state.random, (t, Raw(d, data)));
            && FlowValid(env, keys, f, queued', Arrive(h, d, data), t)
            && AgreeElsewhere(env, queued, queued', t) && OwnQueues(env, t, f, queued')
    ensures ConnOf(f, Pushed(queued, f.progress.state.random, (t, Raw(d, data))))
            == Conn(f, ConnOf(f, queued).queue + [Raw(d, data)])
  {
    var line := WaitingFor(f, queued);
    ChunkWaits(f, Items(line), h, d, data);
    assert Items(line + [(t, Raw(d, data))]) == Items(line) + [Raw(d, data)];
    assert (Items(line) + [Raw(d, data)])[1..] == Items(line)[1..] + [Raw(d, data)];
    hide Conserved, Ideal, Owned;
  }

  /** A message found without its keys starts the queue of its flow. */
  lemma MessageQueued(env: Env, keys: Keys, was: Flow, f: Flow, queued: Lines, h: History, t: Target, x: Queued)
    requires OwnQueues(env, t, was, queued) && !was.progress.state.NeedKeys? && FlowOk(env, keys, t, f, [x] + [], h)
    ensures f.progress.state.NeedKeys?
    ensures var queued' := Pushed(queued, f.progress.state.random, (t, x));
            && FlowValid(env, keys, f, queued', h, t)
            && AgreeElsewhere(env, queued, queued', t) && OwnQueues(env, t, f, queued')
    ensures ConnOf(f, Pushed(queued, f.progress.state.random, (t, x))) == Conn(f, ConnOf(was, queued).queue + [x])
  {
    hide Conserved, Ideal, Owned;
    assert [x] + [] == [x];
    var queued' := Pushed(queued, f.progress.state.random, (t, x));
    assert queued'[f.progress.state.random] == [(t, x)];
    assert Items([(t, x)]) == [x];
  }

  /** A flow that read everything it could has an empty queue. */
  lemma NothingQueued(env: Env, keys: Keys, was: Flow, f: Flow, queued: Lines, h: History, t: Target)
    requires OwnQueues(env, t, was, queued) && !was.progress.state.NeedKeys? && FlowMid(env, keys, t, f, [], h)
    ensures FlowValid(env, keys, f, queued, h, t) && OwnQueues(env, t, f, queued)
    ensures ConnOf(f, queued) == Conn(f, ConnOf(was, queued).queue)
  {
  }

  /** After a replay, what is left of the queue is what the flow waits for. */
  lemma ReplayEnds(env: Env, keys: Keys, queued: Lines, r: ClientRandom, t: Target, was: Flow, f: Flow, line: Line,
                   h: History)
    requires OwnQueues(env, t, was, queued) && was.progress.state.NeedKeys? && was.progress.state.random == r
             && env.owner(r) == t
    requires AllFor(line, t) && FlowOk(env, keys, t, f, Items(line), h) && Stays(was.progress.state, f.progress.state)
    ensures FlowValid(env, keys, f, queued[r := line], h, t)
    ensures AgreeElsewhere(env, queued, queued[r := line], t) && OwnQueues(env, t, f, queued[r := line])
    ensures ConnOf(f, queued[r := line]) == Conn(f, Items(line))
  {
  }

  /** A flow during a replay: as between calls until its first message acted. */
  ghost predicate InReplay(env: Env, keys: Keys, t: Target, f: Flow, q: seq<Queued>, h: History, started: bool) {
    if started then FlowMid(env, keys, t, f, q, h) else FlowOk(env, keys, t, f, q, h)
  }

  lemma HeadOfLine(env: Env, keys: Keys, t: Target, f: Flow, line: Line, h: History, started: bool)
    requires line != [] && InReplay(env, keys, t, f, Items(line), h, started)
    ensures Items(line) == [line[0].1] + Items(line[1..])
    ensures line[0].1.Held? ==> FlowOk(env, keys, t, f, [line[0].1] + Items(line[1..]), h)
    ensures line[0].1.Raw? ==> FlowMid(env, keys, t, f, [line[0].1] + Items(line[1..]), h)
  {
  }

  lemma ReplayedAll(env: Env, keys: Keys, t: Target, f: Flow, h: History)
    requires FlowMid(env, keys, t, f, [], h)
    ensures FlowOk(env, keys, t, f, [], h)
  {
  }

  /** The queue of a flow after an entry was pushed. */
  function Pushed(queued: Lines, r: ClientRandom, x: (Target, Queued)): (queued': Lines) {
    queued[r := (if r in queued then queued[r] else []) + [x]]
  }

  /** Accepts TLS data and queues what it has no keys for. */
  class TLSFlowTracker {
    const env: Env
    const isTls: Target -> bool
    const keyDb: KeyDB
    var flows: Flows
    var queued: Lines
    ghost var hist: Histories

    ghost predicate Valid()
      reads this, keyDb
    {
      EnvOk(env) && AllFlows(env, keyDb.keys, flows, queued, hist) && AllQueues(env, flows, queued)
    }

    constructor (env: Env, isTls: Target -> bool, keyDb: KeyDB)
      requires EnvOk(env)
      ensures Valid() && flows == map[] && this.env == env && this.isTls == isTls && this.keyDb == keyDb
    {
      this.env, this.isTls, this.keyDb := env, isTls, keyDb;
      flows, queued, hist := map[], map[], map[];
    }

    /** The key database may gain secrets at any time. */
    twostate lemma KeysMayArrive()
      requires old(Valid()) && Extends(keyDb.keys, old(keyDb.keys))
      requires flows == old(flows) && queued == old(queued) && hist == old(hist)
      ensures Valid()
    {
      hide FlowOk, Extends;
      forall t | t in flows
        ensures FlowValid(env, keyDb.keys, flows[t], queued, hist[t], t)
      {
        assert FlowValid(env, old(keyDb.keys), flows[t], queued, hist[t], t);
        KeysArrive(env, old(keyDb.keys), keyDb.keys, t, flows[t], Items(WaitingFor(flows[t], queued)), hist[t]);
      }
    }

    method Enqueue(t: Target, x: Queued, r: ClientRandom)
      modifies this`queued
      ensures queued == Pushed(old(queued), r, (t, x))
    {
      if r !in queued {
        queued := queued[r := []];
      }
      queued := queued[r := queued[r] + [(t, x)]];
    }

    /** Only `t` has changed: no other flow, nor what it waits for. */
    twostate predicate OnlyFlow(t: Target)
      reads this
    {
      && SameWaits(old(flows), old(queued), queued, t)
      && flows.Keys == old(flows.Keys) + {t} && hist.Keys == old(hist.Keys) + {t}
      && (forall u :: u in old(flows) && u in flows && u != t ==> flows[u] == old(flows[u]))
      && (forall u :: u in old(hist) && u in hist && u != t ==> hist[u] == old(hist[u]))
    }

    /** Data arrives for a connection.  The program ends when `alive` is false. */
    method OnData(t: Target, d: bool, data: Bytes) returns (alive: bool)
      requires Valid()
      modifies this
      ensures !isTls(t) ==> alive && flows == old(flows) && queued == old(queued) && hist == old(hist)
      ensures alive ==> Valid()
      ensures isTls(t) ==>
                var c := OnChunk(env, keyDb.keys, t, ConnOf(FlowOf(old(flows), t), old(queued)), d, data);
                (alive <==> !c.Gone?) && (alive ==> t in flows && c == ConnOf(flows[t], queued))
      ensures alive && isTls(t) ==> OnlyFlow(t)
      ensures alive && isTls(t) ==> Grown(hist[t], Arrive(HistoryOf(old(hist), t), d, data))
    {
      hide FlowOk, FlowMid, FlowValid, OwnQueues, AllFlows, AllQueues, AgreeElsewhere, PopOk, Stays, Stuck, Pushed,
           Read, Feed, ConnOf, SameWaits;
      if !isTls(t) {
        return true;
      }
      var f := FlowOf(flows, t);
      ghost var h := Arrive(HistoryOf(hist, t), d, data);
      FlowKnown(env, keyDb.keys, flows, queued, hist, t);
      if !IsBlocked(f) {
        StartsReading(env, keyDb.keys, t, f, queued, HistoryOf(hist, t), d, data);
      }
      var f', r;
      f', h, r := InnerOnData(env, keyDb.keys, t, f, d, data, h, []);
      ghost var queued0 := queued;
      alive := !r.Crashed?;
      match r {
        case Crashed =>
          return;
        case Retry(x) =>
          if IsBlocked(f) {
            ChunkQueued(env, keyDb.keys, f, queued, HistoryOf(hist, t), t, d, data);
          } else {
            MessageQueued(env, keyDb.keys, f, f', queued, h, t, x);
          }
          Enqueue(t, x, f'.progress.state.random);
        case Through =>
          NothingQueued(env, keyDb.keys, f, f', queued, h, t);
          SameElsewhere(env, queued, t);
      }
      Replaced(env, keyDb.keys, flows, queued0, hist, t, f', queued, h);
      flows, hist := flows[t := f'], hist[t := h];
    }

    /** Pops and replays entries until one lacks a key, which goes back to the front. */
    method ReplayQueue(ghost t: Target, start: Line) returns (line: Line, ghost stuck: bool, alive: bool)
      requires EnvOk(env) && t in flows && t in hist && start != [] && AllFor(start, t)
      requires InReplay(env, keyDb.keys, t, flows[t], Items(start), hist[t], false)
      modifies this`flows, this`hist
      ensures t in flows && t in hist && flows == old(flows)[t := flows[t]] && hist == old(hist)[t := hist[t]]
      ensures TlsFlow.Replay(env, keyDb.keys, t, old(flows[t]), Items(start))
              == if alive then Conn(flows[t], Items(line)) else Gone
      ensures Grown(hist[t], old(hist[t]))
      ensures alive ==> AllFor(line, t) && Stays(old(flows[t]).progress.state, flows[t].progress.state)
      ensures alive && stuck ==>
        && FlowOk(env, keyDb.keys, t, flows[t], Items(line), hist[t]) && line != []
        && Stuck(env, keyDb.keys, flows[t], line[0].1)
      ensures alive && !stuck ==> line == [] && FlowMid(env, keyDb.keys, t, flows[t], [], hist[t])
    {
      hide FlowOk, FlowMid, PopOk, Stuck, InReplay, Grown, Stays, Items, AllFor, TlsFlow.Replay;
      LineParts(start, t);
      line, stuck := start, false;
      var f := flows[start[0].0];
      ghost var h, started := hist[t], false;
      GrownTwice(h, h, h);
      StaysSame(f.progress.state);
      while line != []
        invariant t in flows && t in hist && flows == old(flows)[t := f] && hist == old(hist)[t := h]
        invariant AllFor(line, t) && (line == [] ==> started)
        invariant InReplay(env, keyDb.keys, t, f, Items(line), h, started)
        invariant TlsFlow.Replay(env, keyDb.keys, t, old(flows[t]), Items(start))
                  == TlsFlow.Replay(env, keyDb.keys, t, f, Items(line))
        invariant Stays(old(flows[t]).progress.state, f.progress.state) && Grown(h, old(hist[t]))
        decreases |line|
      {
        HeadOfLine(env, keyDb.keys, t, f, line, h, started);
        LineParts(line, t);
        var target, item := line[0].0, line[0].1;
        line := line[1..];
        ghost var was, was' := h, f.progress.state;
        var r;
        f, h, r := ProcessQueued(env, keyDb.keys, target, f, item, h, Items(line));
        GrownTwice(h, was, old(hist[t]));
        flows, hist := flows[target := f], hist[target := h];
        if r.Crashed? {
          return line, false, false;
        }
        StaysTwice(old(flows[t]).progress.state, was', f.progress.state);
        if r.Retry? {
          LinePush(t, r.x, line);
          line := [(target, r.x)] + line;
          return line, true, true;
        }
        started := true;
        MidReplay(env, keyDb.keys, t, f, Items(line), h);
      }
      alive := true;
      LineParts([], t);
      MidReplay(env, keyDb.keys, t, f, [], h);
      NothingToReplay(env, keyDb.keys, t, f);
    }

    /** New keys for a client random: its queue is replayed from the front until a message lacks a key. */
    method OnSideData(r: ClientRandom) returns (alive: bool)
      requires Valid()
      modifies this
      ensures alive ==> Valid()
      ensures r !in old(queued) || old(queued[r]) == [] ==>
                alive && flows == old(flows) && queued == old(queued) && hist == old(hist)
      ensures r in old(queued) && old(queued[r]) != [] && env.owner(r) in old(flows) ==>
                var t := env.owner(r);
                var c := OnKeys(env, keyDb.keys, t, ConnOf(old(flows[t]), old(queued)));
                (alive <==> !c.Gone?) && (alive ==> t in flows && c == ConnOf(flows[t], queued))
      ensures r in old(queued) && old(queued[r]) != [] ==> env.owner(r) in old(flows)
      ensures alive && r in old(queued) && old(queued[r]) != [] ==>
        && OnlyFlow(env.owner(r)) && env.owner(r) in old(hist) && env.owner(r) in flows
        && Grown(hist[env.owner(r)], old(hist[env.owner(r)]))
        && r in queued && (queued[r] == [] || Stuck(env, keyDb.keys, flows[env.owner(r)], queued[r][0].1))
    {
      hide FlowOk, FlowMid, FlowValid, OwnQueues, AllFlows, AllQueues, AgreeElsewhere, PopOk, Stuck, InReplay, Stays,
           ConnOf, SameWaits, TlsFlow.Replay;
      if r !in queued || queued[r] == [] {
        return true;
      }
      ghost var t := env.owner(r);
      QueueStarts(env, keyDb.keys, flows, queued, hist, r);
      var line;
      ghost var stuck;
      line, stuck, alive := ReplayQueue(t, queued[r]);
      if alive {
        FinishReplay(env, keyDb.keys, old(flows), queued, old(hist), r, flows[t], line, hist[t], stuck);
        queued := queued[r := line];
      }
    }
  }

  lemma NothingToReplay(env: Env, keys: Keys, t: Target, f: Flow)
    requires PopOk(env)
    ensures TlsFlow.Replay(env, keys, t, f, []) == Conn(f, [])
  {
  }

  lemma GrownTwice(h: History, middle: History, before: History)
    requires h == before || (Grown(h, middle) && Grown(middle, before))
    ensures Grown(h, before)
  {
  }

  lemma LineParts(line: Line, t: Target)
    requires AllFor(line, t)
    ensures line != [] ==> line[0].0 == t && AllFor(line[1..], t)
    ensures line == [] ==> Items(line) == []
  {
  }

  lemma LinePush(t: Target, x: Queued, line: Line)
    requires AllFor(line, t)
    ensures AllFor([(t, x)] + line, t) && Items([(t, x)] + line) == [x] + Items(line)
  {
  }

  lemma StaysSame(s: State)
    ensures Stays(s, s)
  {
  }

  lemma StaysTwice(s: State, middle: State, s': State)
    requires Stays(s, middle) && Stays(middle, s')
    ensures Stays(s, s')
  {
  }

  lemma MidReplay(env: Env, keys: Keys, t: Target, f: Flow, q: seq<Queued>, h: History)
    ensures InReplay(env, keys, t, f, q, h, true) <==> FlowMid(env, keys, t, f, q, h)
  {
  }

  /** Where a replay starts: the flow that owns the queue is blocked on it. */
  lemma QueueStarts(env: Env, keys: Keys, flows: Flows, queued: Lines, hist: Histories, r: ClientRandom)
    requires AllFlows(env, keys, flows, queued, hist) && AllQueues(env, flows, queued) && r in queued && queued[r] != []
    ensures var t := env.owner(r);
            && t in flows && t in hist && flows[t].progress.state.NeedKeys? && flows[t].progress.state.random == r
            && AllFor(queued[r], t) && InReplay(env, keys, t, flows[t], Items(queued[r]), hist[t], false)
            && ConnOf(flows[t], queued) == Conn(flows[t], Items(queued[r]))
  {
    hide Conserved, AsIdeal, Owned, AllRaw;
    assert QueueOwned(env, flows, queued, r);
    assert FlowValid(env, keys, flows[env.owner(r)], queued, hist[env.owner(r)], env.owner(r));
  }

  /** Where a replay ends: everything is in order again. */
  lemma FinishReplay(env: Env, keys: Keys, flows: Flows, queued: Lines, hist: Histories, r: ClientRandom, f: Flow,
                     line: Line, h: History, stuck: bool)
    requires AllFlows(env, keys, flows, queued, hist) && AllQueues(env, flows, queued) && r in queued && queued[r] != []
    requires env.owner(r) in flows && AllFor(line, env.owner(r))
             && Stays(flows[env.owner(r)].progress.state, f.progress.state)
    requires if stuck then FlowOk(env, keys, env.owner(r), f, Items(line), h)
             else line == [] && FlowMid(env, keys, env.owner(r), f, [], h)
    ensures AllFlows(env, keys, flows[env.owner(r) := f], queued[r := line], hist[env.owner(r) := h])
    ensures AllQueues(env, flows[env.owner(r) := f], queued[r := line])
    ensures ConnOf(f, queued[r := line]) == Conn(f, Items(line))
            && SameWaits(flows, queued, queued[r := line], env.owner(r))
  {
    hide FlowOk, FlowMid, FlowValid, OwnQueues, AllQueues, AllFlows, AgreeElsewhere, InReplay, Stays;
    var t := env.owner(r);
    QueueStarts(env, keys, flows, queued, hist, r);
    FlowKnown(env, keys, flows, queued, hist, t);
    if !stuck {
      assert Items(line) == [];
      ReplayedAll(env, keys, t, f, h);
    }
    ReplayEnds(env, keys, queued, r, t, flows[t], f, line, h);
    Replaced(env, keys, flows, queued, hist, t, f, queued[r := line], h);
  }

  lemma SameElsewhere(env: Env, queued: Lines, t: Target)
    ensures AgreeElsewhere(env, queued, queued, t)
  {
  }

  lemma StartsReading(env: Env, keys: Keys, t: Target, f: Flow, queued: Lines, h: History, d: bool, data: Bytes)
    requires FlowValid(env, keys, f, queued, h, t) && !f.progress.state.NeedKeys?
    ensures FlowMid(env, keys, t, Read(f, d, data), [], Arrive(h, d, data))
  {
  }
}

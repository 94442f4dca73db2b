/**
 Late keys against early ones.

 A flow whose keys come late need not end up where a flow with all its keys would: a message
 that was held does not go on with the records behind it when it acts at last.  The theorem says
 exactly which input this can happen to.
 */
module TlsLate {
  import opened Octets
  import opened KeyDb
  import opened TlsHandshake
  import opened TlsFlow

  /** A chunk arrives, the key database grows, or the tracker is told that it has. */
  datatype Event = Chunk(toClient: bool, data: Bytes) | Grow(keys: Keys) | Notify

  type Chunks = seq<(bool, Bytes)>

  function ChunksOf(evs: seq<Event>): (cs: Chunks) {
    if evs == [] then []
    else
      var n := |evs| - 1;
      ChunksOf(evs[..n]) + if evs[n].Chunk? then [(evs[n].toClient, evs[n].data)] else []
  }

  function KeysAfter(keys: Keys, evs: seq<Event>): (k: Keys) {
    if evs == [] then keys
    else
      var n := |evs| - 1;
      if evs[n].Grow? then evs[n].keys else KeysAfter(keys, evs[..n])
  }

  /** The key database only grows, and never beyond `all`. */
  ghost predicate Growing(keys: Keys, evs: seq<Event>, all: Keys) {
    if evs == [] then Extends(all, keys)
    else
      var n := |evs| - 1;
      && Growing(keys, evs[..n], all)
      && (evs[n].Grow? ==> Extends(evs[n].keys, KeysAfter(keys, evs[..n])) && Extends(all, evs[n].keys))
  }

  /** A connection from its start. */
  ghost function Run(env: Env, t: Target, keys: Keys, evs: seq<Event>): (c: Conn)
    requires PopOk(env)
  {
    if evs == [] then NEW_CONN
    else
      var n := |evs| - 1;
      var c := Run(env, t, keys, evs[..n]);
      match evs[n]
      case Chunk(d, data) => OnChunk(env, KeysAfter(keys, evs[..n]), t, c, d, data)
      case Grow(_) => c
      case Notify => OnKeys(env, KeysAfter(keys, evs[..n]), t, c)
  }

  /** The same chunks with all keys known from the start. */
  ghost function Early(env: Env, all: Keys, t: Target, cs: Chunks): (c: Conn)
    requires PopOk(env)
  {
    if cs == [] then NEW_CONN
    else
      var n := |cs| - 1;
      OnChunk(env, all, t, Early(env, all, t, cs[..n]), cs[n].0, cs[n].1)
  }

  // ----- the condition -----

  /** A message that a missing key can hold: a ServerHello, or the first Finished. */
  predicate Holdable(s: State, d: bool, msg: Message) {
    || (s.ExpectServerHello? && d && msg.ServerHello?)
    || (s.WaitForFinish? && !s.clientFinished && !s.serverFinished && msg.Finished?)
  }

  /** With all keys, no message that could be held leaves a complete record behind it. */
  ghost predicate SparseFeed(env: Env, all: Keys, t: Target, f: Flow, d: bool)
    requires PopOk(env)
    decreases |Input(f, d)|
  {
    match Front(env, t, f, d)
    case None => true
    case Some(cut) =>
      var f' := Behind(f, d, cut);
      if cut.msg.None? then SparseFeed(env, all, t, f', d)
      else
        match DoMessage(env, all, f'.progress, d, cut.msg.value)
        case Went(p, more) =>
          var next := f'.(progress := p);
          more ==>
            && (Holdable(f'.progress.state, d, cut.msg.value) ==> Front(env, t, next, d).None?)
            && SparseFeed(env, all, t, next, d)
        case _ => true
  }

  /** The same of one chunk, where it finds the connection. */
  ghost predicate SparseAt(env: Env, all: Keys, t: Target, c: Conn, d: bool, data: Bytes)
    requires PopOk(env)
  {
    c.Conn? && !IsBlocked(c.flow) ==> SparseFeed(env, all, t, Read(c.flow, d, data), d)
  }

  /** The same of all chunks. */
  ghost predicate Sparse(env: Env, all: Keys, t: Target, cs: Chunks)
    requires PopOk(env)
  {
    cs == [] ||
    var n := |cs| - 1;
    Sparse(env, all, t, cs[..n]) && SparseAt(env, all, t, Early(env, all, t, cs[..n]), cs[n].0, cs[n].1)
  }

  // ----- one chunk, with some of the keys and with all -----

  /** After the first Finished every traffic secret is known. */
  ghost predicate KeysOk(keys: Keys, s: State) {
    match s
    case NeedKeys(next, _) => !next.NeedKeys? && KeysOk(keys, next)
    case WaitForFinish(_, r, c, v) => c || v ==>
      && Lookup(keys, r, ClientTrafficSecret0).Some? && Lookup(keys, r, ServerTrafficSecret0).Some?
      && Lookup(keys, r, KeyDb.ExporterSecret).Some?
    case _ => true
  }

  lemma KeysOkStays(keys: Keys, more: Keys, s: State)
    requires KeysOk(keys, s) && Extends(more, keys)
    ensures KeysOk(more, s)
  {
  }

  /** What a message does with some keys and with all: the same, unless it is held; then all keys decide. */
  lemma MessageLate(env: Env, keys: Keys, all: Keys, p: Progress, d: bool, msg: Message)
    requires Extends(all, keys) && KeysOk(keys, p.state) && !p.state.NeedKeys?
    ensures var r := DoMessage(env, keys, p, d, msg);
            && (!r.Blocked? ==> DoMessage(env, all, p, d, msg) == r)
            && (r.Blocked? ==>
                  Holdable(p.state, d, msg) && DoMessage(env, all, r.p, d, msg) == DoMessage(env, all, p, d, msg))
            && (r.Blocked? && DoMessage(env, all, p, d, msg).Blocked? ==> DoMessage(env, all, p, d, msg) == r)
            && (r.Blocked? ==> r.p.state.NeedKeys? && KeysOk(keys, r.p.state))
            && (r.Went? ==> !r.p.state.NeedKeys? && KeysOk(keys, r.p.state))
  {
    if !Drive(env, keys, p, d, msg).Missing? {
      MoreKeysSame(env, keys, all, p, d, msg);
    }
  }

  /** `early` is where a flow held at `msg` gets once all keys are there. */
  ghost predicate Resumes(env: Env, all: Keys, late: Flow, d: bool, msg: Message, early: Fed) {
    match DoMessage(env, all, late.progress, d, msg)
    case Went(p, _) => early.flow == late.(progress := p) && (early.end.Idle? || early.end.Halted?)
    case Blocked(p) => p == late.progress && early == Fed(late, Waits(msg))
    case Died => early.end.Panics?
  }

  lemma {:induction false} FeedLate(env: Env, keys: Keys, all: Keys, t: Target, f: Flow, d: bool)
    requires PopOk(env) && Extends(all, keys) && KeysOk(keys, f.progress.state) && !IsBlocked(f)
    requires SparseFeed(env, all, t, f, d)
    ensures var late, early := Feed(env, keys, t, f, d), Feed(env, all, t, f, d);
            && (!late.end.Waits? ==> early == late)
            && (late.end.Waits? ==> Resumes(env, all, late.flow, d, late.end.msg, early))
            && (!late.end.Panics? ==>
                  KeysOk(keys, late.flow.progress.state) && (IsBlocked(late.flow) <==> late.end.Waits?))
    decreases |Input(f, d)|
  {
    hide DoMessage, Extends, KeysOk, PopOk;
    var cut := Front(env, t, f, d);
    if cut.Some? {
      PopShortens(env, t, f, d);
      var f' := Behind(f, d, cut.value);
      if cut.value.msg.None? {
        FeedLate(env, keys, all, t, f', d);
      } else {
        var msg := cut.value.msg.value;
        MessageLate(env, keys, all, f'.progress, d, msg);
        var r := DoMessage(env, keys, f'.progress, d, msg);
        if r.Went? && r.more {
          FeedLate(env, keys, all, t, f'.(progress := r.p), d);
        }
      }
    }
  }

  lemma PopShortens(env: Env, t: Target, f: Flow, d: bool)
    requires PopOk(env) && Front(env, t, f, d).Some?
    ensures 0 < Front(env, t, f, d).value.len <= |Input(f, d)|
  {
  }

  // ----- the queue, with some of the keys and with all -----

  /** A flow and its queue in between: blocked on the head of the queue, or with raw chunks left. */
  ghost predicate Queues(keys: Keys, f: Flow, q: seq<Queued>) {
    && KeysOk(keys, f.progress.state)
    && if IsBlocked(f) then q != [] && q[0].Held? && AllRaw(q[1..]) else AllRaw(q)
  }

  /** A connection between events. */
  ghost predicate Rests(keys: Keys, c: Conn) {
    c.Conn? ==> Queues(keys, c.flow, c.queue) && (c.queue != [] ==> IsBlocked(c.flow))
  }

  /** The condition, along a replay with all keys. */
  ghost predicate SparseReplay(env: Env, all: Keys, t: Target, f: Flow, q: seq<Queued>)
    requires PopOk(env)
    decreases |q|
  {
    q == [] ||
    match q[0]
    case Held(d, msg) =>
      var r := DoMessage(env, all, f.progress, d, msg);
      r.Went? ==> SparseReplay(env, all, t, f.(progress := r.p), q[1..])
    case Raw(d, data) =>
      IsBlocked(f) ||
      var r := Feed(env, all, t, Read(f, d, data), d);
      && SparseFeed(env, all, t, Read(f, d, data), d)
      && (r.end.Idle? || r.end.Halted? ==> SparseReplay(env, all, t, r.flow, q[1..]))
  }

  ghost predicate SparseConn(env: Env, all: Keys, t: Target, c: Conn)
    requires PopOk(env)
  {
    c.Conn? ==> SparseReplay(env, all, t, c.flow, c.queue)
  }

  /** A held message tried with some of the keys. */
  lemma HeldLate(env: Env, keys: Keys, all: Keys, p: Progress, d: bool, msg: Message)
    requires Extends(all, keys) && KeysOk(keys, p.state) && p.state.NeedKeys?
    ensures var r := DoMessage(env, keys, p, d, msg);
            && (!r.Blocked? ==> DoMessage(env, all, p, d, msg) == r)
            && (r.Blocked? ==>
                  r.p.state.NeedKeys? && KeysOk(keys, r.p.state)
                  && DoMessage(env, all, r.p, d, msg) == DoMessage(env, all, p, d, msg))
            && (r.Went? ==> !r.p.state.NeedKeys? && KeysOk(keys, r.p.state))
  {
    var p0 := p.(state := p.state.next);
    assert Drive(env, keys, p, d, msg) == Drive(env, keys, p0, d, msg)
           && Drive(env, all, p, d, msg) == Drive(env, all, p0, d, msg);
    MessageLate(env, keys, all, p0, d, msg);
  }

  lemma ReadKeeps(f: Flow, d: bool, data: Bytes)
    ensures Read(f, d, data).progress == f.progress
  {
  }

  /** Replaying with some of the keys first makes no difference to replaying with all. */
  lemma {:induction false} KeysTwice(env: Env, keys: Keys, all: Keys, t: Target, f: Flow, q: seq<Queued>)
    requires PopOk(env) && Extends(all, keys) && Queues(keys, f, q) && SparseReplay(env, all, t, f, q)
    ensures var c := Replay(env, keys, t, f, q);
            OnKeys(env, all, t, c) == Replay(env, all, t, f, q) && Rests(keys, c) && SparseConn(env, all, t, c)
    decreases |q|
  {
    hide DoMessage, Extends, KeysOk, PopOk, Feed, SparseFeed, Read;
    if q != [] {
      match q[0]
      case Held(d, msg) =>
        HeldLate(env, keys, all, f.progress, d, msg);
        var r := DoMessage(env, keys, f.progress, d, msg);
        if r.Went? {
          KeysTwice(env, keys, all, t, f.(progress := r.p), q[1..]);
        }
      case Raw(d, data) =>
        var f' := Read(f, d, data);
        ReadKeeps(f, d, data);
        FeedLate(env, keys, all, t, f', d);
        var r := Feed(env, keys, t, f', d);
        if r.end.Waits? {
          assert ([Held(d, r.end.msg)] + q[1..])[1..] == q[1..];
        } else if !r.end.Panics? {
          KeysTwice(env, keys, all, t, r.flow, q[1..]);
        }
    }
  }

  /** A chunk behind a queue is replayed as it would have been taken in after the replay. */
  lemma {:induction false} ReplayPush(env: Env, all: Keys, t: Target, f: Flow, q: seq<Queued>, d: bool, data: Bytes)
    requires PopOk(env)
    ensures Replay(env, all, t, f, q + [Raw(d, data)]) == OnChunk(env, all, t, Replay(env, all, t, f, q), d, data)
    ensures SparseReplay(env, all, t, f, q) && SparseAt(env, all, t, Replay(env, all, t, f, q), d, data) ==>
              SparseReplay(env, all, t, f, q + [Raw(d, data)])
    decreases |q|
  {
    hide DoMessage, PopOk, Feed, SparseFeed;
    var q' := q + [Raw(d, data)];
    if q == [] {
      assert q' == [Raw(d, data)] && q'[1..] == [] && [] + [Raw(d, data)] == q';
      if !IsBlocked(f) {
        var r := Feed(env, all, t, Read(f, d, data), d);
        if r.end.Waits? {
          assert [Held(d, r.end.msg)] + [] == [] + [Held(d, r.end.msg)];
        }
      }
    } else {
      assert q'[0] == q[0] && q'[1..] == q[1..] + [Raw(d, data)];
      match q[0]
      case Held(e, msg) =>
        BlockedIsBlocked(env, all, f.progress, e, msg);
        var r := DoMessage(env, all, f.progress, e, msg);
        if r.Went? {
          ReplayPush(env, all, t, f.(progress := r.p), q[1..], d, data);
        }
      case Raw(e, chunk) =>
        if !IsBlocked(f) {
          var r := Feed(env, all, t, Read(f, e, chunk), e);
          if r.end.Waits? {
            assert ([Held(e, r.end.msg)] + q[1..]) + [Raw(d, data)] == [Held(e, r.end.msg)] + q'[1..];
          } else if !r.end.Panics? {
            ReplayPush(env, all, t, r.flow, q[1..], d, data);
          }
        }
    }
  }

  lemma BlockedIsBlocked(env: Env, keys: Keys, p: Progress, d: bool, msg: Message)
    ensures var r := DoMessage(env, keys, p, d, msg); r.Blocked? ==> r.p.state.NeedKeys?
  {
  }

  // ----- whole runs -----

  /** A run and its chunks with all keys, side by side: replaying what waits with all keys closes the gap. */
  ghost predicate InStep(env: Env, keys: Keys, all: Keys, t: Target, late: Conn, early: Conn)
    requires PopOk(env)
  {
    Extends(all, keys) && Rests(keys, late) && SparseConn(env, all, t, late) && OnKeys(env, all, t, late) == early
  }

  lemma ChunkInStep(env: Env, keys: Keys, all: Keys, t: Target, late: Conn, early: Conn, d: bool, data: Bytes)
    requires PopOk(env) && InStep(env, keys, all, t, late, early) && SparseAt(env, all, t, early, d, data)
    ensures InStep(env, keys, all, t, OnChunk(env, keys, t, late, d, data), OnChunk(env, all, t, early, d, data))
  {
    hide DoMessage, Extends, KeysOk, PopOk, Feed, SparseFeed;
    if late.Conn? {
      if IsBlocked(late.flow) {
        ReplayPush(env, all, t, late.flow, late.queue, d, data);
        assert (late.queue + [Raw(d, data)])[1..] == late.queue[1..] + [Raw(d, data)];
      } else {
        var f := Read(late.flow, d, data);
        assert f.progress == late.flow.progress && early == late;
        FeedLate(env, keys, all, t, f, d);
        var r := Feed(env, keys, t, f, d);
        if r.end.Waits? {
          assert late.queue + [Held(d, r.end.msg)] == [Held(d, r.end.msg)] && [Held(d, r.end.msg)][1..] == [];
          HeldAlone(env, all, t, r.flow, d, r.end.msg);
        }
      }
    }
  }

  lemma HeldAlone(env: Env, all: Keys, t: Target, f: Flow, d: bool, msg: Message)
    requires PopOk(env)
    ensures SparseReplay(env, all, t, f, [Held(d, msg)])
    ensures Replay(env, all, t, f, [Held(d, msg)])
            == match DoMessage(env, all, f.progress, d, msg)
               case Went(p, _) => Conn(f.(progress := p), [])
               case Blocked(p) => Conn(f.(progress := p), [Held(d, msg)])
               case Died => Gone
  {
    hide DoMessage, PopOk;
    assert [Held(d, msg)][1..] == [];
  }

  lemma GrowInStep(env: Env, keys: Keys, more: Keys, all: Keys, t: Target, late: Conn, early: Conn)
    requires PopOk(env) && InStep(env, keys, all, t, late, early) && Extends(more, keys) && Extends(all, more)
    ensures InStep(env, more, all, t, late, early)
  {
    hide Extends, KeysOk, PopOk, OnKeys, SparseConn;
    if late.Conn? {
      KeysOkStays(keys, more, late.flow.progress.state);
    }
  }

  lemma NotifyInStep(env: Env, keys: Keys, all: Keys, t: Target, late: Conn, early: Conn)
    requires PopOk(env) && InStep(env, keys, all, t, late, early)
    ensures InStep(env, keys, all, t, OnKeys(env, keys, t, late), early)
  {
    hide Extends, KeysOk, PopOk, Replay, SparseReplay;
    if late.Conn? {
      KeysTwice(env, keys, all, t, late.flow, late.queue);
    }
  }

  lemma {:induction false} RunInStep(env: Env, t: Target, keys: Keys, all: Keys, evs: seq<Event>)
    requires PopOk(env) && Growing(keys, evs, all) && Sparse(env, all, t, ChunksOf(evs))
    ensures InStep(env, KeysAfter(keys, evs), all, t, Run(env, t, keys, evs), Early(env, all, t, ChunksOf(evs)))
  {
    hide Extends, PopOk, InStep, SparseAt, OnChunk, OnKeys;
    if evs == [] {
      StartsInStep(env, keys, all, t);
    } else {
      var n := |evs| - 1;
      var cs := ChunksOf(evs[..n]);
      var late, early, k := Run(env, t, keys, evs[..n]), Early(env, all, t, cs), KeysAfter(keys, evs[..n]);
      assert cs + [] == cs;
      match evs[n]
      case Chunk(d, data) =>
        assert ChunksOf(evs)[..|cs|] == cs;
        RunInStep(env, t, keys, all, evs[..n]);
        ChunkInStep(env, k, all, t, late, early, d, data);
      case Grow(more) =>
        RunInStep(env, t, keys, all, evs[..n]);
        GrowInStep(env, k, more, all, t, late, early);
      case Notify =>
        RunInStep(env, t, keys, all, evs[..n]);
        NotifyInStep(env, k, all, t, late, early);
    }
  }

  lemma StartsInStep(env: Env, keys: Keys, all: Keys, t: Target)
    requires PopOk(env) && Extends(all, keys)
    ensures InStep(env, keys, all, t, NEW_CONN, NEW_CONN)
  {
  }

  /** Whenever the keys come and however often, the connection ends where all keys would have taken it. */
  ghost predicate KeysNeverMatter(env: Env, all: Keys, t: Target, cs: Chunks)
    requires PopOk(env)
  {
    forall n: nat, keys, evs :: n <= |cs| && Growing(keys, evs, all) && ChunksOf(evs) == cs[..n] ==>
      OnKeys(env, all, t, Run(env, t, keys, evs)) == Early(env, all, t, cs[..n])
  }

  lemma {:induction false} SparsePrefix(env: Env, all: Keys, t: Target, cs: Chunks, n: nat)
    requires PopOk(env) && Sparse(env, all, t, cs) && n <= |cs|
    ensures Sparse(env, all, t, cs[..n])
    decreases |cs|
  {
    hide SparseAt;
    if n == |cs| {
      assert cs[..n] == cs;
    } else {
      SparsePrefix(env, all, t, cs[..|cs| - 1], n);
      assert cs[..|cs| - 1][..n] == cs[..n];
    }
  }

  lemma SparseSuffices(env: Env, all: Keys, t: Target, cs: Chunks)
    requires PopOk(env) && Sparse(env, all, t, cs)
    ensures KeysNeverMatter(env, all, t, cs)
  {
    hide PopOk, Sparse, Early, OnKeys;
    forall n: nat, keys, evs | n <= |cs| && Growing(keys, evs, all) && ChunksOf(evs) == cs[..n]
      ensures OnKeys(env, all, t, Run(env, t, keys, evs)) == Early(env, all, t, cs[..n])
    {
      SparsePrefix(env, all, t, cs, n);
      RunInStep(env, t, keys, all, evs);
    }
  }
}

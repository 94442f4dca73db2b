/** The condition of `TlsLate` is needed: where it fails, keys that come late do matter. */
module TlsLateIff {
  import opened Wrappers
  import opened Octets
  import opened KeyDb
  import opened TlsHandshake
  import opened TlsFlow
  import opened TlsLate

  // ----- databases that lack the keys of one stage -----

  predicate OfHandshake(typ: SecretType) {
    typ == ClientHandshakeTrafficSecret || typ == ServerHandshakeTrafficSecret
  }

  function HandshakeOnly(ks: ConnectionKeys): (r: ConnectionKeys) {
    if ks == [] then [] else (if OfHandshake(ks[0].0) then [ks[0]] else []) + HandshakeOnly(ks[1..])
  }

  lemma {:induction false} FirstOfHandshake(ks: ConnectionKeys, typ: SecretType)
    ensures First(HandshakeOnly(ks), typ) == if OfHandshake(typ) then First(ks, typ) else None
  {
    if ks != [] {
      FirstOfHandshake(ks[1..], typ);
      var rest := HandshakeOnly(ks[1..]);
      assert ([ks[0]] + rest)[1..] == rest && [] + rest == rest;
    }
  }

  /** No keys, or only those of the handshake. */
  function Only(all: Keys, stage: nat): (keys: Keys) {
    if stage == 0 then map[] else map r | r in all :: HandshakeOnly(all[r])
  }

  lemma OnlyLooksUp(all: Keys, stage: nat, r: ClientRandom, typ: SecretType)
    ensures Lookup(Only(all, stage), r, typ) == if stage > 0 && OfHandshake(typ) then Lookup(all, r, typ) else None
  {
    if r in all {
      FirstOfHandshake(all[r], typ);
    }
  }

  lemma OnlyIsLess(all: Keys, stage: nat)
    ensures Extends(all, Only(all, stage))
  {
    forall r, typ | Lookup(Only(all, stage), r, typ).Some?
      ensures Lookup(all, r, typ) == Lookup(Only(all, stage), r, typ)
    {
      OnlyLooksUp(all, stage, r, typ);
    }
  }

  // ----- stages of a handshake -----

  /** How far a flow is: before the ServerHello, before the first Finished, behind it, failed. */
  function Stage(s: State): (n: nat) {
    match s
    case ExpectClientHello => 0
    case ExpectServerHello(_) => 0
    case WaitForFinish(_, _, c, v) => if c || v then 2 else 1
    case Failed => 3
    case NeedKeys(next, _) => Stage(next)
  }

  /** A message that leaves the flow at a stage needs no keys beyond it. */
  lemma StageNeeds(env: Env, all: Keys, stage: nat, p: Progress, d: bool, msg: Message)
    requires !p.state.NeedKeys? && stage <= 1
    ensures var r := DoMessage(env, all, p, d, msg);
            r.Went? ==>
              && Stage(p.state) <= Stage(r.p.state) && !r.p.state.NeedKeys? && (!r.more ==> r.p.state.Failed?)
              && (Stage(r.p.state) <= stage ==> DoMessage(env, Only(all, stage), p, d, msg) == r)
              && (r.more && Holdable(p.state, d, msg) && stage == Stage(p.state) ==>
                    DoMessage(env, Only(all, stage), p, d, msg).Blocked?)
  {
    if p.state.ExpectServerHello? || p.state.WaitForFinish? {
      var random := p.state.random;
      OnlyLooksUp(all, stage, random, ClientHandshakeTrafficSecret);
      OnlyLooksUp(all, stage, random, ServerHandshakeTrafficSecret);
      OnlyLooksUp(all, stage, random, ClientTrafficSecret0);
    }
  }

  /** A chunk that leaves the flow at a stage does the same with only the keys of that stage. */
  lemma {:induction false} FeedWithLess(env: Env, all: Keys, t: Target, stage: nat, f: Flow, d: bool)
    requires PopOk(env) && !IsBlocked(f) && stage <= 1
    requires var r := Feed(env, all, t, f, d);
             (r.end.Idle? || r.end.Halted?) && Stage(r.flow.progress.state) <= stage
    ensures Feed(env, Only(all, stage), t, f, d) == Feed(env, all, t, f, d)
    ensures Stage(f.progress.state) <= stage
    decreases |Input(f, d)|
  {
    hide DoMessage, PopOk, Only;
    var cut := Front(env, t, f, d);
    if cut.Some? {
      PopShortens(env, t, f, d);
      var f' := Behind(f, d, cut.value);
      if cut.value.msg.None? {
        FeedWithLess(env, all, t, stage, f', d);
      } else {
        StageNeeds(env, all, stage, f'.progress, d, cut.value.msg.value);
        var r := DoMessage(env, all, f'.progress, d, cut.value.msg.value);
        if r.Went? && r.more {
          FeedWithLess(env, all, t, stage, f'.(progress := r.p), d);
        }
      }
    }
  }

  lemma {:induction false} EarlyWithLess(env: Env, all: Keys, t: Target, stage: nat, cs: Chunks)
    requires PopOk(env) && stage <= 1
    requires var c := Early(env, all, t, cs);
             c.Conn? && !IsBlocked(c.flow) && Stage(c.flow.progress.state) <= stage
    ensures Early(env, Only(all, stage), t, cs) == Early(env, all, t, cs)
  {
    hide PopOk, Feed, Only;
    if cs != [] {
      var n := |cs| - 1;
      var c := Early(env, all, t, cs[..n]);
      var f := Read(c.flow, cs[n].0, cs[n].1);
      assert f.progress == c.flow.progress;
      FeedWithLess(env, all, t, stage, f, cs[n].0);
      EarlyWithLess(env, all, t, stage, cs[..n]);
    }
  }

  // ----- a chunk that breaks the condition -----

  lemma {:induction false} FeedCuts(env: Env, keys: Keys, t: Target, f: Flow, d: bool)
    requires PopOk(env) && Front(env, t, f, d).Some?
    ensures |Input(Feed(env, keys, t, f, d).flow, d)| < |Input(f, d)|
  {
    PopShortens(env, t, f, d);
  }

  /** The chunk blocks with only these keys, and all keys then leave a record that they would have cut. */
  ghost predicate LeavesRecord(env: Env, keys: Keys, all: Keys, t: Target, f: Flow, d: bool)
    requires PopOk(env)
  {
    var late := Feed(env, keys, t, f, d);
    && late.end.Waits?
    && DoMessage(env, all, late.flow.progress, d, late.end.msg).Went?
    && |Input(Feed(env, all, t, f, d).flow, d)| < |Input(late.flow, d)|
  }

  lemma {:induction false} BrokenFeed(env: Env, all: Keys, t: Target, f: Flow, d: bool) returns (stage: nat)
    requires PopOk(env) && !IsBlocked(f) && !SparseFeed(env, all, t, f, d)
    ensures stage <= 1 && Stage(f.progress.state) <= stage && LeavesRecord(env, Only(all, stage), all, t, f, d)
    decreases |Input(f, d)|
  {
    hide DoMessage, PopOk, Only;
    PopShortens(env, t, f, d);
    var cut := Front(env, t, f, d).value;
    var f' := Behind(f, d, cut);
    if cut.msg.None? {
      stage := BrokenFeed(env, all, t, f', d);
    } else {
      var msg := cut.msg.value;
      var r := DoMessage(env, all, f'.progress, d, msg);
      var next := f'.(progress := r.p);
      if Holdable(f'.progress.state, d, msg) && Front(env, t, next, d).Some? {
        stage := Stage(f'.progress.state);
        StageNeeds(env, all, stage, f'.progress, d, msg);
        FeedCuts(env, all, t, next, d);
        TriedAgain(env, Only(all, stage), all, f'.progress, d, msg);
      } else {
        StageNeeds(env, all, 0, f'.progress, d, msg);
        stage := BrokenFeed(env, all, t, next, d);
        StageNeeds(env, all, stage, f'.progress, d, msg);
      }
    }
  }

  lemma TriedAgain(env: Env, keys: Keys, all: Keys, p: Progress, d: bool, msg: Message)
    requires !p.state.NeedKeys? && DoMessage(env, keys, p, d, msg).Blocked?
    ensures DoMessage(env, all, DoMessage(env, keys, p, d, msg).p, d, msg).Went? <==>
              DoMessage(env, all, p, d, msg).Went?
  {
  }

  // ----- keys that come after the chunk -----

  function AsEvents(cs: Chunks): (evs: seq<Event>) {
    if cs == [] then [] else AsEvents(cs[..|cs| - 1]) + [Chunk(cs[|cs| - 1].0, cs[|cs| - 1].1)]
  }

  lemma EventsSplit(cs: Chunks)
    requires cs != []
    ensures var evs, n := AsEvents(cs), |cs| - 1;
            evs != [] && evs[..|evs| - 1] == AsEvents(cs[..n]) && evs[|evs| - 1] == Chunk(cs[n].0, cs[n].1)
  {
  }

  lemma {:induction false} ChunksBringNoKeys(keys: Keys, all: Keys, cs: Chunks)
    requires Extends(all, keys)
    ensures ChunksOf(AsEvents(cs)) == cs && Growing(keys, AsEvents(cs), all) && KeysAfter(keys, AsEvents(cs)) == keys
  {
    hide Extends, AsEvents;
    if cs == [] {
      NoEvents();
    } else {
      var n := |cs| - 1;
      ChunksBringNoKeys(keys, all, cs[..n]);
      EventsSplit(cs);
      assert cs == cs[..n] + [cs[n]];
    }
  }

  lemma NoEvents()
    ensures AsEvents([]) == []
  {
  }

  /** Chunks alone, with some of the keys. */
  lemma {:induction false} ChunksAlone(env: Env, keys: Keys, all: Keys, t: Target, cs: Chunks)
    requires PopOk(env) && Extends(all, keys)
    ensures ChunksOf(AsEvents(cs)) == cs && Growing(keys, AsEvents(cs), all) && KeysAfter(keys, AsEvents(cs)) == keys
    ensures Run(env, t, keys, AsEvents(cs)) == Early(env, keys, t, cs)
  {
    hide PopOk, Extends, OnChunk, Growing, ChunksOf, KeysAfter, OnKeys, AsEvents;
    ChunksBringNoKeys(keys, all, cs);
    if cs == [] {
      NoEvents();
    } else {
      var n := |cs| - 1;
      ChunksBringNoKeys(keys, all, cs[..n]);
      EventsSplit(cs);
      ChunksAlone(env, keys, all, t, cs[..n]);
    }
  }

  lemma {:induction false} NothingWaits(env: Env, all: Keys, t: Target, cs: Chunks)
    requires PopOk(env)
    ensures var c := Early(env, all, t, cs); c.Conn? && !IsBlocked(c.flow) ==> c.queue == []
  {
    hide PopOk, Feed;
    if cs != [] {
      NothingWaits(env, all, t, cs[..|cs| - 1]);
    }
  }

  /** A chunk that leaves a record leaves the connection where all keys do not lead. */
  lemma RecordMatters(env: Env, keys: Keys, all: Keys, t: Target, f: Flow, d: bool, data: Bytes)
    requires PopOk(env) && !IsBlocked(f) && LeavesRecord(env, keys, all, t, Read(f, d, data), d)
    ensures OnKeys(env, all, t, OnChunk(env, keys, t, Conn(f, []), d, data))
            != OnChunk(env, all, t, Conn(f, []), d, data)
  {
    hide PopOk, Feed, DoMessage;
    var late := Feed(env, keys, t, Read(f, d, data), d);
    assert [] + [Held(d, late.end.msg)] == [Held(d, late.end.msg)];
    HeldAlone(env, all, t, late.flow, d, late.end.msg);
  }

  /** With keys that come right after a chunk that breaks the condition, the connection is not where all keys lead. */
  lemma BrokenMatters(env: Env, all: Keys, t: Target, cs: Chunks)
    requires PopOk(env) && cs != []
    requires var n := |cs| - 1; !SparseAt(env, all, t, Early(env, all, t, cs[..n]), cs[n].0, cs[n].1)
    ensures exists keys ::
              Extends(all, keys) && OnKeys(env, all, t, Run(env, t, keys, AsEvents(cs))) != Early(env, all, t, cs)
  {
    hide PopOk, Only, Extends, SparseFeed, LeavesRecord, OnChunk, OnKeys, AsEvents, Run;
    var n := |cs| - 1;
    var c, d := Early(env, all, t, cs[..n]), cs[n].0;
    var f := Read(c.flow, d, cs[n].1);
    assert f.progress == c.flow.progress;
    var stage := BrokenFeed(env, all, t, f, d);
    var keys := Only(all, stage);
    OnlyIsLess(all, stage);
    ChunksAlone(env, keys, all, t, cs);
    EarlyWithLess(env, all, t, stage, cs[..n]);
    NothingWaits(env, all, t, cs[..n]);
    RecordMatters(env, keys, all, t, c.flow, d, cs[n].1);
  }

  lemma {:induction false} SparseNeeded(env: Env, all: Keys, t: Target, cs: Chunks, n: nat)
    requires PopOk(env) && KeysNeverMatter(env, all, t, cs) && n <= |cs|
    ensures Sparse(env, all, t, cs[..n])
  {
    hide PopOk, SparseAt, OnKeys, Early, Run;
    if n > 0 {
      SparseNeeded(env, all, t, cs, n - 1);
      var prefix := cs[..n];
      assert prefix[..n - 1] == cs[..n - 1] && |prefix| == n;
      if !SparseAt(env, all, t, Early(env, all, t, prefix[..n - 1]), prefix[n - 1].0, prefix[n - 1].1) {
        BrokenMatters(env, all, t, prefix);
        var keys :| Extends(all, keys)
            && OnKeys(env, all, t, Run(env, t, keys, AsEvents(prefix))) != Early(env, all, t, prefix);
        ChunksAlone(env, keys, all, t, prefix);
      }
    }
  }

  /**
   Exactly when late keys make no difference, for every prefix of the input and every time the keys
   may come: no message that a missing key can hold leaves a complete record behind it.
   */
  lemma KeysNeverMatterIff(env: Env, all: Keys, t: Target, cs: Chunks)
    requires PopOk(env)
    ensures KeysNeverMatter(env, all, t, cs) <==> Sparse(env, all, t, cs)
  {
    hide KeysNeverMatter, Sparse, PopOk;
    if KeysNeverMatter(env, all, t, cs) {
      SparseNeeded(env, all, t, cs, |cs|);
      assert cs[..|cs|] == cs;
    }
    if Sparse(env, all, t, cs) {
      SparseSuffices(env, all, t, cs);
    }
  }
}

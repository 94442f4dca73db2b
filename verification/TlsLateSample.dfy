/** An input for which late keys lose output: extensions behind a held ServerHello are never read. */
module TlsLateSample {
  import opened Wrappers
  import opened Octets
  import opened KeyDb
  import opened TlsHandshake
  import opened TlsFlow
  import opened TlsLate
  import opened TlsLateIff

  /** One octet to a record: 1 and 2 are the hellos, 3 and 4 need the keys of the handshake to be read. */
  function SampleMessage(record: RecordLayer, b: byte): (msg: Option<Message>) {
    if b == 1 then Some(ClientHello([]))
    else if b == 2 then Some(ServerHello(0))
    else if b == 3 && record.HandshakeKeys? then Some(EncryptedExtensions(Some([])))
    else if b == 4 && record.HandshakeKeys? then Some(Finished)
    else None
  }

  function SamplePop(t: Target, d: bool, record: RecordLayer, s: Deframer, b: Bytes): (cut: Option<Cut>) {
    if b == [] || SampleMessage(record, b[0]).None? then None else Some(Cut(1, s, SampleMessage(record, b[0])))
  }

  const SAMPLE := Env(SamplePop, _ => Tls13, _ => 0)

  const SECRETS: Keys := map[[] := [
    (ClientHandshakeTrafficSecret, []), (ServerHandshakeTrafficSecret, []),
    (ClientTrafficSecret0, []), (ServerTrafficSecret0, []), (KeyDb.ExporterSecret, [])]]

  const CHUNKS: Chunks := [(false, [1]), (true, [2, 3]), (false, [4])]

  lemma SampleOk()
    ensures PopOk(SAMPLE)
  {
  }

  lemma AllSecrets(typ: SecretType)
    requires typ != Tls12ClientMasterSecret && typ != ClientEarlyTrafficSecret
    ensures Lookup(SECRETS, [], typ) == Some([])
  {
    var ks := SECRETS[[]];
    assert First(ks, typ) == Some([]) by {
      assert First(ks[4..], typ) == if typ == KeyDb.ExporterSecret then Some([]) else None;
      assert ks[3..][1..] == ks[4..] && ks[2..][1..] == ks[3..] && ks[1..][1..] == ks[2..];
    }
  }

  function At(state: State, record: RecordLayer, out: seq<Effect>, client: Bytes, server: Bytes): (f: Flow) {
    Flow(Progress(state, record, record, out), Side(0, client), Side(0, server))
  }

  const HELLO := ExpectServerHello([])
  const FINISHING := WaitForFinish(0, [], false, false)
  const FINISHED := WaitForFinish(0, [], false, true)
  const HANDSHAKE := HandshakeKeys(0, [], [])
  const TRAFFIC := TrafficKeys(0, [], [], [])

  lemma FeedIdle(keys: Keys, f: Flow, d: bool)
    requires Front(SAMPLE, 0, f, d).None? && PopOk(SAMPLE)
    ensures Feed(SAMPLE, keys, 0, f, d) == Fed(f, Idle)
  {
  }

  lemma ReadClientHello(keys: Keys)
    ensures PopOk(SAMPLE)
    ensures OnChunk(SAMPLE, keys, 0, NEW_CONN, false, [1]) == Conn(At(HELLO, Clear, [], [], []), [])
  {
    SampleOk();
    var f, next := Read(NEW_FLOW, false, [1]), At(HELLO, Clear, [], [], []);
    assert Behind(f, false, Cut(1, 0, Some(ClientHello([])))) == NEW_FLOW;
    FeedIdle(keys, next, false);
    assert Feed(SAMPLE, keys, 0, f, false) == Fed(next, Idle);
  }

  lemma ServerHelloActs(client: Bytes, server: Bytes)
    ensures DoMessage(SAMPLE, SECRETS, At(HELLO, Clear, [], client, server).progress, true, ServerHello(0))
         == Went(At(FINISHING, HANDSHAKE, [], client, server).progress, true)
  {
    hide Lookup;
    AllSecrets(ClientHandshakeTrafficSecret);
    AllSecrets(ServerHandshakeTrafficSecret);
  }

  lemma FinishedActs(out: seq<Effect>)
    ensures DoMessage(SAMPLE, SECRETS, At(FINISHING, HANDSHAKE, out, [], []).progress, false, Finished)
         == Went(At(FINISHED, TRAFFIC, out, [], []).progress, true)
  {
    hide Lookup;
    AllSecrets(ClientTrafficSecret0);
    AllSecrets(ServerTrafficSecret0);
    AllSecrets(KeyDb.ExporterSecret);
  }

  /** The Finished message of the client, whatever waits on the other side. */
  lemma ReadFinished(out: seq<Effect>, client: Bytes)
    requires PopOk(SAMPLE)
    ensures Feed(SAMPLE, SECRETS, 0, At(FINISHING, HANDSHAKE, out, client, [4]), false)
            == Fed(At(FINISHED, TRAFFIC, out, client, []), Idle)
  {
    var f, next := At(FINISHING, HANDSHAKE, out, client, [4]), At(FINISHED, TRAFFIC, out, client, []);
    FinishedActs(out);
    hide DoMessage;
    assert Behind(f, false, Cut(1, 0, Some(Finished))) == At(FINISHING, HANDSHAKE, out, client, []);
    FeedIdle(SECRETS, next, false);
  }

  /** The ServerHello and the extensions behind it, with all keys. */
  lemma ReadHelloEarly()
    requires PopOk(SAMPLE)
    ensures Feed(SAMPLE, SECRETS, 0, At(HELLO, Clear, [], [2, 3], []), true)
            == Fed(At(FINISHING, HANDSHAKE, [Alpn([])], [], []), Idle)
  {
    var f, f1 := At(HELLO, Clear, [], [2, 3], []), At(FINISHING, HANDSHAKE, [], [3], []);
    var f2 := At(FINISHING, HANDSHAKE, [Alpn([])], [], []);
    ServerHelloActs([3], []);
    assert [2, 3][1..] == [3] && [3][1..] == [];
    assert Behind(f, true, Cut(1, 0, Some(ServerHello(0)))) == At(HELLO, Clear, [], [3], []);
    assert Behind(f1, true, Cut(1, 0, Some(EncryptedExtensions(Some([]))))) == At(FINISHING, HANDSHAKE, [], [], []);
    FeedIdle(SECRETS, f2, true);
    assert [] + [Alpn([])] == [Alpn([])];
    assert Feed(SAMPLE, SECRETS, 0, f1, true) == Fed(f2, Idle);
  }

  /** The same without keys: the ServerHello is held and the extensions stay behind it. */
  lemma ReadHelloLate()
    requires PopOk(SAMPLE)
    ensures Feed(SAMPLE, map[], 0, At(HELLO, Clear, [], [2, 3], []), true)
         == Fed(At(NeedKeys(HELLO, []), Clear, [], [3], []), Waits(ServerHello(0)))
  {
    assert [2, 3][1..] == [3];
    assert Behind(At(HELLO, Clear, [], [2, 3], []), true, Cut(1, 0, Some(ServerHello(0))))
           == At(HELLO, Clear, [], [3], []);
  }

  lemma EarlyRun()
    requires PopOk(SAMPLE)
    ensures Early(SAMPLE, SECRETS, 0, CHUNKS) == Conn(At(FINISHED, TRAFFIC, [Alpn([])], [], []), [])
  {
    hide Feed, PopOk;
    var first: Chunks := [CHUNKS[0]];
    assert CHUNKS[..2] == [CHUNKS[0], CHUNKS[1]] && CHUNKS[..2][..1] == first && first[..0] == [];
    ReadClientHello(SECRETS);
    assert Early(SAMPLE, SECRETS, 0, []) == NEW_CONN;
    assert Early(SAMPLE, SECRETS, 0, first) == Conn(At(HELLO, Clear, [], [], []), []);
    ReadHelloEarly();
    assert [] + [2, 3] == [2, 3] && [] + [4] == [4];
    assert Early(SAMPLE, SECRETS, 0, CHUNKS[..2]) == Conn(At(FINISHING, HANDSHAKE, [Alpn([])], [], []), []);
    ReadFinished([Alpn([])], []);
  }

  lemma LateRun()
    requires PopOk(SAMPLE)
    ensures Early(SAMPLE, map[], 0, CHUNKS)
         == Conn(At(NeedKeys(HELLO, []), Clear, [], [3], []), [Held(true, ServerHello(0)), Raw(false, [4])])
  {
    hide Feed, PopOk;
    var first: Chunks := [CHUNKS[0]];
    assert CHUNKS[..2] == [CHUNKS[0], CHUNKS[1]] && CHUNKS[..2][..1] == first && first[..0] == [];
    ReadClientHello(map[]);
    assert Early(SAMPLE, map[], 0, []) == NEW_CONN;
    assert Early(SAMPLE, map[], 0, first) == Conn(At(HELLO, Clear, [], [], []), []);
    ReadHelloLate();
    assert [] + [2, 3] == [2, 3] && [] + [Held(true, ServerHello(0))] == [Held(true, ServerHello(0))];
    assert Early(SAMPLE, map[], 0, CHUNKS[..2])
           == Conn(At(NeedKeys(HELLO, []), Clear, [], [3], []), [Held(true, ServerHello(0))]);
  }

  lemma KeysArriveLate()
    requires PopOk(SAMPLE)
    ensures Replay(SAMPLE, SECRETS, 0, At(NeedKeys(HELLO, []), Clear, [], [3], []),
                   [Held(true, ServerHello(0)), Raw(false, [4])])
         == Conn(At(FINISHED, TRAFFIC, [], [3], []), [])
  {
    var held, f := At(NeedKeys(HELLO, []), Clear, [], [3], []), At(FINISHING, HANDSHAKE, [], [3], []);
    var q := [Held(true, ServerHello(0)), Raw(false, [4])];
    ServerHelloActs([3], []);
    assert DoMessage(SAMPLE, SECRETS, held.progress, true, ServerHello(0)) == Went(f.progress, true);
    assert q[1..] == [Raw(false, [4])] && q[1..][1..] == [];
    hide Feed, PopOk, DoMessage;
    assert Read(f, false, [4]) == At(FINISHING, HANDSHAKE, [], [3], [4]) by { assert [] + [4] == [4]; }
    ReadFinished([], [3]);
    assert Replay(SAMPLE, SECRETS, 0, f, q[1..]) == Conn(At(FINISHED, TRAFFIC, [], [3], []), []);
  }

  /**
   With all keys the extensions are passed on.  With the same keys after the last chunk they are not:
   the client's Finished changes the keys while the extensions are still in the input, unread for good.
   */
  lemma LateKeysLoseOutput()
    ensures PopOk(SAMPLE)
    ensures var early := Early(SAMPLE, SECRETS, 0, CHUNKS);
            early.Conn? && early.flow.progress.out == [Alpn([])]
    ensures var late := OnKeys(SAMPLE, SECRETS, 0, Run(SAMPLE, 0, map[], AsEvents(CHUNKS)));
            late.Conn? && late.flow.progress.out == [] && late.queue == [] && Input(late.flow, true) == [3]
  {
    hide Feed, Early, Run, Replay, PopOk;
    SampleOk();
    EarlyRun();
    LateRun();
    ChunksAlone(SAMPLE, map[], SECRETS, 0, CHUNKS);
    KeysArriveLate();
  }
}

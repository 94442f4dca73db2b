/**
 What the messages of a flow mean, read off the list of them: what is passed on, whose secrets are
 installed, and which message ends, fails or holds up the flow.
 */
module TlsMeaning {
  import opened Wrappers
  import opened KeyDb
  import opened TlsHandshake

  type Messages = seq<(bool, Message)>

  /** What one message passes on, whoever sent it. */
  function Passes(d: bool, msg: Message): (r: seq<Effect>) {
    match msg
    case ApplicationData(data) => [Data(d, data)]
    case EncryptedExtensions(protocols) => if protocols.Some? then [Alpn(protocols.value)] else []
    case _ => []
  }

  function Passed(ms: Messages): (r: seq<Effect>) {
    if ms == [] then [] else Passed(ms[..|ms| - 1]) + Passes(ms[|ms| - 1].0, ms[|ms| - 1].1)
  }

  /** A Finished in the given direction has been seen. */
  predicate FinishedIn(ms: Messages, d: bool) {
    exists i :: 0 <= i < |ms| && ms[i] == (d, Finished)
  }

  /** The flow starts as it should: a ClientHello. */
  predicate Greets(ms: Messages) {
    |ms| >= 1 && !ms[0].0 && ms[0].1.ClientHello?
  }

  /** And it is answered by a ServerHello for a suite of TLS 1.3. */
  predicate Answered(env: Env, ms: Messages) {
    |ms| >= 2 && Greets(ms) && ms[1].0 && ms[1].1.ServerHello? && env.suiteOf(ms[1].1.suite).Tls13?
  }

  /** A first message that is no ClientHello, or a second one that no flow can go on from. */
  predicate Refused(env: Env, ms: Messages) {
    || (|ms| >= 1 && !Greets(ms))
    || (|ms| >= 2 && Greets(ms) && ms[1].0
        && (!ms[1].1.ServerHello? || env.suiteOf(ms[1].1.suite).Unknown?))
  }

  /** The record layer holds the secrets that the key log gives for this client random, each in its place. */
  ghost predicate Installed(keys: Keys, r: ClientRandom, suite: nat, traffic: bool, layer: RecordLayer) {
    if traffic then
      && layer.TrafficKeys? && layer.suite == suite
      && Lookup(keys, r, ClientTrafficSecret0) == Some(layer.clientSecret)
      && Lookup(keys, r, ServerTrafficSecret0) == Some(layer.serverSecret)
      && Lookup(keys, r, KeyDb.ExporterSecret) == Some(layer.exporter)
    else
      && layer.HandshakeKeys? && layer.suite == suite
      && Lookup(keys, r, ClientHandshakeTrafficSecret) == Some(layer.clientSecret)
      && Lookup(keys, r, ServerHandshakeTrafficSecret) == Some(layer.serverSecret)
  }

  /** Where the messages alone say a flow must stand. */
  ghost predicate Stands(env: Env, keys: Keys, ms: Messages, p: Progress) {
    if ms == [] then p == START
    else if Refused(env, ms) then p == START.(state := Failed)
    else if |ms| == 1 then p == START.(state := ExpectServerHello(ms[0].1.random))
    else
      && Answered(env, ms)
      && var r, suite := ms[0].1.random, ms[1].1.suite;
         && p.state == WaitForFinish(suite, r, FinishedIn(ms, true), FinishedIn(ms, false))
         && p.out == Passed(ms)
         && p.client == p.server && Installed(keys, r, suite, FinishedIn(ms, false), p.client)
  }

  lemma FinishedPush(ms: Messages, x: (bool, Message), d: bool)
    ensures FinishedIn(ms + [x], d) <==> FinishedIn(ms, d) || x == (d, Finished)
  {
    var all := ms + [x];
    if FinishedIn(ms, d) {
      var i :| 0 <= i < |ms| && ms[i] == (d, Finished);
      assert all[i] == (d, Finished);
    }
    assert all[|ms|] == x;
  }

  /** What the hellos say does not change with what follows. */
  lemma HellosStay(env: Env, ms: Messages, x: (bool, Message))
    ensures |ms| >= 1 ==> (Greets(ms + [x]) <==> Greets(ms))
    ensures |ms| >= 2 ==> (Refused(env, ms + [x]) <==> Refused(env, ms))
    ensures |ms| >= 2 ==> (Answered(env, ms + [x]) <==> Answered(env, ms))
  {
  }

  lemma HelloStands(env: Env, keys: Keys, x: (bool, Message))
    requires DoMessage(env, keys, START, x.0, x.1).Went?
    ensures Stands(env, keys, [x], DoMessage(env, keys, START, x.0, x.1).p)
  {
  }

  lemma AnswerStands(env: Env, keys: Keys, hello: (bool, Message), x: (bool, Message), p: Progress)
    requires Stands(env, keys, [hello], p) && DoMessage(env, keys, p, x.0, x.1).Went?
    ensures Stands(env, keys, [hello, x], DoMessage(env, keys, p, x.0, x.1).p)
  {
    var ms := [hello, x];
    assert ms[..1] == [hello] && [hello][..0] == [];
    assert ms[0] == hello && ms[1] == x;
    assert Passed([hello]) == Passed([]) + Passes(hello.0, hello.1);
    assert Passed(ms) == Passed([hello]) + Passes(x.0, x.1);
  }

  lemma LaterStands(env: Env, keys: Keys, ms: Messages, x: (bool, Message), p: Progress)
    requires |ms| >= 2 && Stands(env, keys, ms, p) && DoMessage(env, keys, p, x.0, x.1).Went?
    ensures Stands(env, keys, ms + [x], DoMessage(env, keys, p, x.0, x.1).p)
  {
    hide FinishedIn;
    HellosStay(env, ms, x);
    FinishedPush(ms, x, true);
    FinishedPush(ms, x, false);
    var all := ms + [x];
    assert all[..|all| - 1] == ms && all[0] == ms[0] && all[1] == ms[1];
    assert Passed(all) == Passed(ms) + Passes(x.0, x.1);
  }

  /**
   A flow that has acted on these messages stands where they say: everything of the application and the
   protocols agreed on has been passed on, once, in order and with its direction, and nothing else; each
   secret is the one the key log gives for this connection.
   */
  lemma {:induction false} IdealStands(env: Env, keys: Keys, ms: Messages)
    ensures Ideal(env, keys, ms).Some? ==> Stands(env, keys, ms, Ideal(env, keys, ms).value)
  {
    hide Stands, DoMessage;
    if ms == [] {
      StartStands(env, keys);
    } else if Ideal(env, keys, ms).Some? {
      var n := |ms| - 1;
      IdealStands(env, keys, ms[..n]);
      var p := Ideal(env, keys, ms[..n]).value;
      assert ms == ms[..n] + [ms[n]];
      if n == 0 {
        assert ms == [ms[0]];
        StandsAtStart(env, keys, p);
        HelloStands(env, keys, ms[0]);
      } else if n == 1 {
        assert ms == [ms[0], ms[1]] && ms[..1] == [ms[0]];
        AnswerStands(env, keys, ms[0], ms[1], p);
      } else {
        LaterStands(env, keys, ms[..n], ms[n], p);
      }
    }
  }

  lemma StartStands(env: Env, keys: Keys)
    ensures Stands(env, keys, [], START)
  {
  }

  lemma StandsAtStart(env: Env, keys: Keys, p: Progress)
    requires Stands(env, keys, [], p)
    ensures p == START
  {
  }

  // ----- messages that cannot act -----

  /** The second message of a flow that ends the program: one to the server, or one that chooses TLS 1.2. */
  predicate Fatal(env: Env, keys: Keys, ms: Messages) {
    && |ms| == 2 && Greets(ms)
    && (!ms[1].0
        || (ms[1].1.ServerHello? && env.suiteOf(ms[1].1.suite).Tls12? && Knows(keys, ms[0].1.random, false)))
  }

  /** The secrets a hello needs, or those a Finished needs. */
  predicate Knows(keys: Keys, r: ClientRandom, traffic: bool) {
    if traffic then
      && Lookup(keys, r, ClientTrafficSecret0).Some? && Lookup(keys, r, ServerTrafficSecret0).Some?
      && Lookup(keys, r, KeyDb.ExporterSecret).Some?
    else
      Lookup(keys, r, ClientHandshakeTrafficSecret).Some? && Lookup(keys, r, ServerHandshakeTrafficSecret).Some?
  }

  /** A ServerHello or a Finished whose secrets are not known yet. */
  predicate Early(env: Env, keys: Keys, ms: Messages) {
    && |ms| >= 2 && Greets(ms) && !Refused(env, ms[..|ms| - 1])
    && var (d, msg) := ms[|ms| - 1];
       if |ms| == 2 then d && msg.ServerHello? && !Knows(keys, ms[0].1.random, false)
       else msg.Finished? && !Knows(keys, ms[0].1.random, true)
  }

  /** A message that meets a flow where the messages before it have left it. */
  ghost predicate Stops(env: Env, keys: Keys, ms: Messages, p: Progress)
    requires ms != []
  {
    var (d, msg) := ms[|ms| - 1];
    var r := DoMessage(env, keys, p, d, msg);
    (r.Died? <==> Fatal(env, keys, ms)) && (r.Blocked? <==> Early(env, keys, ms))
  }

  lemma FirstStops(env: Env, keys: Keys, x: (bool, Message))
    ensures Stops(env, keys, [x], START)
  {
  }

  lemma SecondStops(env: Env, keys: Keys, hello: (bool, Message), x: (bool, Message), p: Progress)
    requires Stands(env, keys, [hello], p)
    ensures Stops(env, keys, [hello, x], p)
  {
    var ms := [hello, x];
    assert ms[..1] == [hello] && ms[0] == hello && ms[1] == x;
  }

  lemma LaterStops(env: Env, keys: Keys, ms: Messages, x: (bool, Message), p: Progress)
    requires |ms| >= 2 && Stands(env, keys, ms, p)
    ensures Stops(env, keys, ms + [x], p)
  {
    hide FinishedIn, Passed, Installed;
    HellosStay(env, ms, x);
    var all := ms + [x];
    assert all[..|all| - 1] == ms && all[0] == ms[0] && all[1] == ms[1];
  }

  /** Exactly when the last of these messages cannot act, and whether it waits or ends the program. */
  lemma LastStops(env: Env, keys: Keys, ms: Messages)
    requires ms != [] && Ideal(env, keys, ms[..|ms| - 1]).Some?
    ensures Stops(env, keys, ms, Ideal(env, keys, ms[..|ms| - 1]).value)
  {
    hide Stands, Stops;
    var n := |ms| - 1;
    IdealStands(env, keys, ms[..n]);
    var p := Ideal(env, keys, ms[..n]).value;
    assert ms == ms[..n] + [ms[n]];
    if n == 0 {
      assert ms == [ms[0]];
      StandsAtStart(env, keys, p);
      FirstStops(env, keys, ms[0]);
    } else if n == 1 {
      assert ms == [ms[0], ms[1]] && ms[..1] == [ms[0]];
      SecondStops(env, keys, ms[0], ms[1], p);
    } else {
      LaterStops(env, keys, ms[..n], ms[n], p);
    }
  }
}

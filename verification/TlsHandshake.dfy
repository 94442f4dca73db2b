/**
 The TLS 1.3 handshake as a passive observer follows it.

 Cryptography is left out: a record layer is described by the secrets installed in it, and
 deframing and decryption are a parameter, as is the table of cipher suites.
 */
module TlsHandshake {
  import opened Wrappers
  import opened Octets
  import opened KeyDb

  type Target = nat
  type Deframer = nat

  datatype Message =
    | ClientHello(random: ClientRandom)
    | ServerHello(suite: nat)
    | EncryptedExtensions(protocols: Option<seq<Bytes>>)
    | Finished
    | ApplicationData(data: Bytes)
    | OtherMessage

  datatype Suite = Unknown | Tls12 | Tls13

  datatype RecordLayer =
    | Clear
    | HandshakeKeys(suite: nat, clientSecret: Secret, serverSecret: Secret)
    | TrafficKeys(suite: nat, clientSecret: Secret, serverSecret: Secret, exporter: Secret)

  /** A record taken from the front of the input: its length, and its message if it parses. */
  datatype Cut = Cut(len: nat, next: Deframer, msg: Option<Message>)

  /** What surrounds the tracker. `toClient` tells the directions apart. */
  datatype Env = Env(
    pop: (Target, bool, RecordLayer, Deframer, Bytes) -> Option<Cut>,
    suiteOf: nat -> Suite,
    owner: ClientRandom -> Target)

  /** A record is never empty. */
  ghost predicate PopOk(env: Env) {
    forall t, d, r, s, b :: env.pop(t, d, r, s, b).Some? ==> 0 < env.pop(t, d, r, s, b).value.len <= |b|
  }

  /** Moreover no two connections show the same client random. */
  ghost predicate EnvOk(env: Env) {
    && PopOk(env)
    && (forall t, d, r, s, b :: env.pop(t, d, r, s, b).Some? ==> Owned(env, t, env.pop(t, d, r, s, b).value.msg))
  }

  ghost predicate Owned(env: Env, t: Target, msg: Option<Message>) {
    msg.Some? && msg.value.ClientHello? ==> env.owner(msg.value.random) == t
  }

  datatype State =
    | Failed
    | ExpectClientHello
    | ExpectServerHello(random: ClientRandom)
    | WaitForFinish(suite: nat, random: ClientRandom, clientFinished: bool, serverFinished: bool)
    | NeedKeys(next: State, random: ClientRandom)

  /** What is passed on to the next listener. */
  datatype Effect = Alpn(protocols: seq<Bytes>) | Data(toClient: bool, data: Bytes)

  /** Everything a message can change. */
  datatype Progress = Progress(state: State, client: RecordLayer, server: RecordLayer, out: seq<Effect>)

  const START := Progress(ExpectClientHello, Clear, Clear, [])

  /** `Missing` gives back the state that could not go on. */
  datatype Outcome = Advance(p: Progress) | Fail | Missing(state: State, random: ClientRandom) | Panic

  function ServerHelloSeen(env: Env, keys: Keys, p: Progress, random: ClientRandom, suite: nat): (o: Outcome)
    requires p.state == ExpectServerHello(random)
  {
    var c := Lookup(keys, random, ClientHandshakeTrafficSecret);
    var s := Lookup(keys, random, ServerHandshakeTrafficSecret);
    if c.None? || s.None? then Missing(p.state, random)
    else
      match env.suiteOf(suite)
      case Unknown => Fail
      case Tls12 => Panic
      case Tls13 =>
        var ks := HandshakeKeys(suite, c.value, s.value);
        Advance(p.(state := WaitForFinish(suite, random, false, false), client := ks, server := ks))
  }

  function FinishedSeen(keys: Keys, p: Progress, toClient: bool): (o: Outcome)
    requires p.state.WaitForFinish?
  {
    var random := p.state.random;
    var c := Lookup(keys, random, ClientTrafficSecret0);
    var s := Lookup(keys, random, ServerTrafficSecret0);
    var x := Lookup(keys, random, KeyDb.ExporterSecret);
    if c.None? || s.None? || x.None? then Missing(p.state, random)
    else if toClient then Advance(p.(state := p.state.(clientFinished := true)))
    else
      var ks := TrafficKeys(p.state.suite, c.value, s.value, x.value);
      Advance(p.(state := p.state.(serverFinished := true), client := ks, server := ks))
  }

  function Drive(env: Env, keys: Keys, p: Progress, toClient: bool, msg: Message): (o: Outcome)
    decreases p.state
  {
    match p.state
    case Failed => Advance(p)
    case ExpectClientHello =>
      if toClient then Advance(p.(state := Failed))
      else if msg.ClientHello? then Advance(p.(state := ExpectServerHello(msg.random)))
      else Fail
    case ExpectServerHello(random) =>
      if !toClient then Panic
      else if msg.ServerHello? then ServerHelloSeen(env, keys, p, random, msg.suite)
      else Fail
    case WaitForFinish(_, _, _, _) =>
      (match msg
       case EncryptedExtensions(protocols) =>
         Advance(if protocols.Some? then p.(out := p.out + [Alpn(protocols.value)]) else p)
       case Finished => FinishedSeen(keys, p, toClient)
       case ApplicationData(data) => Advance(p.(out := p.out + [Data(toClient, data)]))
       case _ => Advance(p))
    case NeedKeys(next, _) => Drive(env, keys, p.(state := next), toClient, msg)
  }

  // ----- letting a message act -----

  datatype Acted = Went(p: Progress, more: bool) | Blocked(p: Progress) | Died

  /** A failure leaves the flow failed for good; a missing key leaves everything but the mark that it is missing. */
  function DoMessage(env: Env, keys: Keys, p: Progress, toClient: bool, msg: Message): (r: Acted) {
    match Drive(env, keys, p, toClient, msg)
    case Advance(p') => Went(p', true)
    case Missing(state, random) => Blocked(p.(state := NeedKeys(state, random)))
    case Fail => Went(p.(state := Failed), false)
    case Panic => Died
  }

  function Unblocked(p: Progress): (p': Progress) {
    if p.state.NeedKeys? then p.(state := p.state.next) else p
  }

  /** The client random a state waits for keys of, when it knows one. */
  function RandomOf(s: State): (r: Option<ClientRandom>) {
    if s.Failed? || s.ExpectClientHello? then None else Some(s.random)
  }

  /** A blocked state is blocked once, on its own client random; a random belongs to its flow. */
  ghost predicate StateOk(env: Env, t: Target, s: State) {
    && (s.NeedKeys? ==> !s.next.NeedKeys? && RandomOf(s.next) == Some(s.random))
    && (RandomOf(s).Some? ==> env.owner(RandomOf(s).value) == t)
  }

  /** A flow never changes its client random, and a failed flow stays failed. */
  ghost predicate Stays(s: State, s': State) {
    s'.Failed? || (!s.Failed? && (RandomOf(s).Some? ==> RandomOf(s') == RandomOf(s)))
  }

  /** The message cannot act with these keys. */
  predicate Starved(env: Env, keys: Keys, p: Progress, d: bool, msg: Message) {
    Drive(env, keys, p, d, msg).Missing?
  }

  /** A message that finds a key missing changes nothing, so that it can be tried again. */
  lemma RetryIsPure(env: Env, keys: Keys, t: Target, p: Progress, d: bool, msg: Message)
    requires StateOk(env, t, p.state) && Owned(env, t, Some(msg))
    ensures var r := DoMessage(env, keys, p, d, msg);
            && (r.Blocked? ==> r.p.state.NeedKeys? && StateOk(env, t, r.p.state) && Unblocked(r.p) == Unblocked(p))
            && (r.Went? ==> !r.p.state.NeedKeys? && StateOk(env, t, r.p.state))
            && (p.state.NeedKeys? && r.Blocked? ==> r.p == p)
            && (r.Blocked? ==> Starved(env, keys, r.p, d, msg))
            && (!r.Died? ==> Stays(p.state, r.p.state))
  {
    var p0 := Unblocked(p);
    assert Drive(env, keys, p, d, msg) == Drive(env, keys, p0, d, msg);
    assert !p0.state.NeedKeys?;
  }

  /** An outcome other than a missing key does not change when more keys arrive. */
  lemma MoreKeysSame(env: Env, keys: Keys, more: Keys, p: Progress, d: bool, msg: Message)
    requires Extends(more, keys) && !Drive(env, keys, p, d, msg).Missing?
    ensures Drive(env, more, p, d, msg) == Drive(env, keys, p, d, msg)
    decreases p.state
  {
    match p.state
    case NeedKeys(next, _) => MoreKeysSame(env, keys, more, p.(state := next), d, msg);
    case _ =>
  }

  // ----- the reference: all keys known from the start -----

  /** The progress of a flow that acts on these messages with these keys and never waits. */
  function Ideal(env: Env, keys: Keys, msgs: seq<(bool, Message)>): (p: Option<Progress>) {
    if msgs == [] then Some(START)
    else
      var n := |msgs| - 1;
      var before := Ideal(env, keys, msgs[..n]);
      if before.None? then None
      else
        var r := DoMessage(env, keys, before.value, msgs[n].0, msgs[n].1);
        if r.Went? then Some(r.p) else None
  }

  lemma IdealStep(env: Env, keys: Keys, msgs: seq<(bool, Message)>, p: Progress, d: bool, msg: Message)
    requires Ideal(env, keys, msgs) == Some(Unblocked(p)) && DoMessage(env, keys, p, d, msg).Went?
    requires p.state.NeedKeys? ==> !p.state.next.NeedKeys?
    ensures Ideal(env, keys, msgs + [(d, msg)]) == Some(DoMessage(env, keys, p, d, msg).p)
  {
  }

  /** Once every message acted, more keys would have made no difference. */
  lemma {:induction false} IdealExtends(env: Env, keys: Keys, more: Keys, msgs: seq<(bool, Message)>)
    requires Extends(more, keys) && Ideal(env, keys, msgs).Some?
    ensures Ideal(env, more, msgs) == Ideal(env, keys, msgs)
  {
    if msgs != [] {
      var n := |msgs| - 1;
      IdealExtends(env, keys, more, msgs[..n]);
      MoreKeysSame(env, keys, more, Ideal(env, keys, msgs[..n]).value, msgs[n].0, msgs[n].1);
    }
  }
}

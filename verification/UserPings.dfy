/**
 The user-ping handshake between a user's task and the connection task.

 They share one atomic cell.  Every atomic access is a step of its own, so the steps of
 the two tasks interleave in every way; the connection's write of a PING is a load, a
 frame put in the buffer, and a store.
 */
module UserPings {
  datatype Cell = Empty | PendingPing | PendingPong | ReceivedPong | Closed

  /** Where the connection task stands inside `send_pending_ping`. */
  datatype Pc = Outside | Loaded | Written

  /** What has been achieved, in order. */
  datatype Event = SendOk | PingWritten | PongAccepted | PollOk | Dropped

  datatype State = State(cell: Cell, pc: Pc, history: seq<Event>)

  datatype Action =
    | UserSend        // send_ping: compare-exchange Empty -> PendingPing
    | UserPoll        // poll_pong: compare-exchange ReceivedPong -> Empty
    | ConnLoad        // send_pending_ping: load
    | ConnNotReady    // the codec cannot take the frame; come back later
    | ConnWrite       // the PING is put in the buffer
    | ConnStore       // send_pending_ping: store PendingPong
    | ConnPong        // receive_pong: compare-exchange PendingPong -> ReceivedPong
    | ConnDrop        // the connection goes away: store Closed

  const INITIAL := State(Empty, Outside, [])

  /** The connection task is one thread: it finishes `send_pending_ping` before it does anything else. */
  predicate Enabled(s: State, a: Action) {
    match a
    case UserSend => true
    case UserPoll => true
    case ConnLoad => s.pc == Outside && s.cell != Closed
    case ConnNotReady => s.pc == Loaded
    case ConnWrite => s.pc == Loaded
    case ConnStore => s.pc == Written
    case ConnPong => s.pc == Outside && s.cell != Closed
    case ConnDrop => s.pc == Outside && s.cell != Closed
  }

  function Step(s: State, a: Action): (r: State)
    requires Enabled(s, a)
  {
    match a
    case UserSend => if s.cell == Empty then s.(cell := PendingPing, history := s.history + [SendOk]) else s
    case UserPoll => if s.cell == ReceivedPong then s.(cell := Empty, history := s.history + [PollOk]) else s
    case ConnLoad => if s.cell == PendingPing then s.(pc := Loaded) else s
    case ConnNotReady => s.(pc := Outside)
    case ConnWrite => s.(pc := Written, history := s.history + [PingWritten])
    case ConnStore => s.(pc := Outside, cell := PendingPong)
    case ConnPong =>
      if s.cell == PendingPong then s.(cell := ReceivedPong, history := s.history + [PongAccepted]) else s
    case ConnDrop => s.(cell := Closed, history := s.history + [Dropped])
  }

  function Phase(i: nat): (e: Event) {
    if i % 4 == 0 then SendOk else if i % 4 == 1 then PingWritten
    else if i % 4 == 2 then PongAccepted else PollOk
  }

  /** The history goes round: send, write, pong, poll; it may end with the drop. */
  ghost predicate Cyclic(h: seq<Event>) {
    forall i :: 0 <= i < |h| ==> h[i] == Phase(i) || (i == |h| - 1 && h[i] == Dropped)
  }

  /** How far round the cell and the program counter say the handshake is. */
  function Round(s: State): (n: nat)
    requires s.cell != Closed
  {
    match s.cell
    case Empty => 0
    case PendingPing => if s.pc == Written then 2 else 1
    case PendingPong => 2
    case ReceivedPong => 3
  }

  ghost predicate Inv(s: State) {
    && Cyclic(s.history)
    && (s.pc != Outside ==> s.cell == PendingPing)
    && (s.cell == Closed <==> s.history != [] && s.history[|s.history| - 1] == Dropped)
    && (s.cell != Closed ==> |s.history| % 4 == Round(s))
  }

  /** The next event of the round, or the drop, extends a history that has not been dropped. */
  lemma ExtendCyclic(h: seq<Event>, e: Event)
    requires Cyclic(h) && (h == [] || h[|h| - 1] != Dropped) && (e == Phase(|h|) || e == Dropped)
    ensures Cyclic(h + [e])
  {
  }

  lemma StepKeepsInv(s: State, a: Action)
    requires Inv(s) && Enabled(s, a)
    ensures Inv(Step(s, a))
  {
    hide Cyclic;
    match a
    case UserSend =>
      if s.cell == Empty { ExtendCyclic(s.history, SendOk); }
    case UserPoll =>
      if s.cell == ReceivedPong { ExtendCyclic(s.history, PollOk); }
    case ConnWrite =>
      ExtendCyclic(s.history, PingWritten);
    case ConnPong =>
      if s.cell == PendingPong { ExtendCyclic(s.history, PongAccepted); }
    case ConnDrop =>
      ExtendCyclic(s.history, Dropped);
    case _ =>
  }

  /** Runs of the two tasks, in any interleaving. */
  ghost predicate Runs(s: State, actions: seq<Action>, s': State)
    decreases |actions|
  {
    if actions == [] then s == s'
    else Enabled(s, actions[0]) && Runs(Step(s, actions[0]), actions[1..], s')
  }

  lemma {:induction false} RunKeepsInv(s: State, actions: seq<Action>, s': State)
    requires Inv(s) && Runs(s, actions, s')
    ensures Inv(s')
    decreases |actions|
  {
    if actions != [] {
      StepKeepsInv(s, actions[0]);
      RunKeepsInv(Step(s, actions[0]), actions[1..], s');
    }
  }

  function Count(h: seq<Event>, e: Event): (n: nat) {
    if h == [] then 0 else Count(h[..|h| - 1], e) + if h[|h| - 1] == e then 1 else 0
  }

  lemma {:induction false} CountPhase(h: seq<Event>, k: nat)
    requires k < 4 && forall i :: 0 <= i < |h| ==> h[i] == Phase(i)
    ensures Count(h, Phase(k)) == (|h| + 3 - k) / 4
  {
    if h != [] {
      hide Phase;
      var n := |h| - 1;
      CountPhase(h[..n], k);
      assert h[n] == Phase(n);
      SamePhase(n, k);
      Quarters(n, k);
    }
  }

  lemma SamePhase(n: nat, k: nat)
    requires k < 4
    ensures Phase(n) == Phase(k) <==> n % 4 == k
  {
  }

  lemma Quarters(n: nat, k: nat)
    requires k < 4
    ensures (n + 4 - k) / 4 == (n + 3 - k) / 4 + if n % 4 == k then 1 else 0
  {
  }

  /** In a cyclic history sends lead polls by at most one, drop or no drop. */
  lemma CyclicCounts(h: seq<Event>)
    requires Cyclic(h)
    ensures Count(h, PollOk) <= Count(h, SendOk) <= Count(h, PollOk) + 1
  {
    hide Phase;
    var p := if h != [] && h[|h| - 1] == Dropped then h[..|h| - 1] else h;
    CountPhase(p, 0);
    CountPhase(p, 3);
    assert Phase(0) == SendOk && Phase(3) == PollOk by { FourPhases(); }
  }

  lemma FourPhases()
    ensures Phase(0) == SendOk && Phase(1) == PingWritten && Phase(2) == PongAccepted && Phase(3) == PollOk
  {
  }

  /** The store of `send_pending_ping` replaces exactly the value its load saw. */
  lemma StoreOverwritesNothing(actions: seq<Action>, s: State)
    requires Runs(INITIAL, actions, s) && s.pc != Outside
    ensures s.cell == PendingPing
  {
    RunKeepsInv(INITIAL, actions, s);
  }

  /** Once closed, always closed, and nothing more succeeds. */
  lemma {:induction false} ClosedAbsorbs(s: State, actions: seq<Action>, s': State)
    requires Inv(s) && s.cell == Closed && Runs(s, actions, s')
    ensures s' == s
    decreases |actions|
  {
    if actions != [] {
      ClosedAbsorbs(Step(s, actions[0]), actions[1..], s');
    }
  }

  /**
   Over every interleaving the successful calls alternate strictly: each poll that succeeds
   follows a PING written after the latest successful send, and sends lead by at most one.
   */
  lemma PingsAlternate(actions: seq<Action>, s: State)
    requires Runs(INITIAL, actions, s)
    ensures Cyclic(s.history)
    ensures Count(s.history, PollOk) <= Count(s.history, SendOk) <= Count(s.history, PollOk) + 1
    ensures forall i :: 0 <= i < |s.history| && s.history[i] == PollOk ==>
              && i >= 3 && s.history[i - 3] == SendOk && s.history[i - 2] == PingWritten
              && s.history[i - 1] == PongAccepted
  {
    RunKeepsInv(INITIAL, actions, s);
    CyclicCounts(s.history);
    var h := s.history;
    forall i | 0 <= i < |h| && h[i] == PollOk
      ensures i >= 3 && h[i - 3] == SendOk && h[i - 2] == PingWritten && h[i - 1] == PongAccepted
    {
      PollPosition(h, i);
    }
  }

  lemma PollPosition(h: seq<Event>, i: nat)
    requires Cyclic(h) && i < |h| && h[i] == PollOk
    ensures i >= 3 && h[i - 3] == SendOk && h[i - 2] == PingWritten && h[i - 1] == PongAccepted
  {
  }

  /** A round trip that nothing disturbs goes all the way round, and leaves the cell as it was. */
  lemma UndisturbedRound(s: State) returns (s': State)
    requires Inv(s) && s.cell == Empty
    ensures Runs(s, [UserSend, ConnLoad, ConnWrite, ConnStore, ConnPong, UserPoll], s')
    ensures s'.cell == Empty && s'.pc == Outside
    ensures s'.history == s.history + [SendOk, PingWritten, PongAccepted, PollOk]
  {
    hide Inv, Cyclic;
    assert s.pc == Outside by {
      OutsideUnlessPending(s);
    }
    var s1 := Step(s, UserSend);
    var s2 := Step(s1, ConnLoad);
    var s3 := Step(s2, ConnWrite);
    var s4 := Step(s3, ConnStore);
    var s5 := Step(s4, ConnPong);
    s' := Step(s5, UserPoll);
    Last(s5, UserPoll);
    More(s4, ConnPong, [UserPoll], s');
    assert [ConnPong] + [UserPoll] == [ConnPong, UserPoll];
    More(s3, ConnStore, [ConnPong, UserPoll], s');
    assert [ConnStore] + [ConnPong, UserPoll] == [ConnStore, ConnPong, UserPoll];
    More(s2, ConnWrite, [ConnStore, ConnPong, UserPoll], s');
    assert [ConnWrite] + [ConnStore, ConnPong, UserPoll] == [ConnWrite, ConnStore, ConnPong, UserPoll];
    More(s1, ConnLoad, [ConnWrite, ConnStore, ConnPong, UserPoll], s');
    var rest := [ConnLoad, ConnWrite, ConnStore, ConnPong, UserPoll];
    assert [ConnLoad] + [ConnWrite, ConnStore, ConnPong, UserPoll] == rest;
    More(s, UserSend, rest, s');
    assert [UserSend] + rest == [UserSend, ConnLoad, ConnWrite, ConnStore, ConnPong, UserPoll];
  }

  lemma OutsideUnlessPending(s: State)
    requires Inv(s) && s.cell != PendingPing
    ensures s.pc == Outside
  {
  }

  lemma Last(s: State, a: Action)
    requires Enabled(s, a)
    ensures Runs(s, [a], Step(s, a))
  {
    assert [a][1..] == [];
  }

  lemma More(s: State, a: Action, rest: seq<Action>, s': State)
    requires Enabled(s, a) && Runs(Step(s, a), rest, s')
    ensures Runs(s, [a] + rest, s')
  {
    assert ([a] + rest)[1..] == rest;
  }
}

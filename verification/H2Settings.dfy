/** Keeping settings in step with the peer (section 6.5.3 of RFC 7540). */
module H2Settings {
  import opened Wrappers
  import opened Supply
  import opened H2Codec

  datatype Local = ToSend(params: Params) | WaitingAck(params: Params) | Synced

  /** `Faulted` carries the reason of a connection error. */
  datatype Outcome = Done | Blocked | Broke | Faulted(reason: nat)

  class Settings {
    var local: Local
    var remote: Option<Params>
    /** Settings the stream layer has been given, ours and the peer's. */
    ghost var localApplied: seq<Params>
    ghost var remoteApplied: seq<Params>

    constructor (initial: Params)
      ensures local == WaitingAck(initial) && remote.None? && localApplied == [] && remoteApplied == []
    {
      local, remote := WaitingAck(initial), None;
      localApplied, remoteApplied := [], [];
    }

    /** An ack applies what is outstanding; anything else must wait to be acknowledged. */
    method RecvSettings(ack: bool, params: Params, fault: Option<nat>) returns (r: Outcome)
      requires !ack ==> remote.None?
      modifies this
      ensures r == if !ack then Done
                   else if !old(local).WaitingAck? then Faulted(PROTOCOL_ERROR)
                   else if fault.Some? then Faulted(fault.value) else Done
      ensures remoteApplied == old(remoteApplied)
      ensures remote == if ack then old(remote) else Some(params)
      ensures ack && r.Done? ==>
                old(local).WaitingAck? && local == Synced && localApplied == old(localApplied) + [old(local).params]
      ensures !ack || r.Faulted? ==> local == old(local) && localApplied == old(localApplied)
    {
      if ack {
        match local {
          case WaitingAck(p) =>
            if fault.Some? {
              return Faulted(fault.value);
            }
            localApplied := localApplied + [p];
            local := Synced;
            return Done;
          case _ =>
            return Faulted(PROTOCOL_ERROR);
        }
      }
      remote := Some(params);
      r := Done;
    }

    /** Queues our settings; refused while earlier ones are unacknowledged. */
    method SendSettings(params: Params) returns (accepted: bool)
      modifies this`local
      ensures accepted <==> old(local).Synced?
      ensures local == if accepted then ToSend(params) else old(local)
    {
      if local.Synced? {
        local := ToSend(params);
        return true;
      }
      accepted := false;
    }

    /** Acknowledges, then applies, what the peer sent; then sends ours. */
    method PollSend(codec: Codec) returns (r: Outcome)
      modifies this, codec`script, codec`buffered
      ensures old(codec.buffered) <= codec.buffered
      ensures (Exchange(remote, local, codec.script, codec.buffered), r)
              == Send(Exchange(old(remote), old(local), old(codec.script), old(codec.buffered)))
      ensures localApplied == old(localApplied)
      ensures r.Done? ==> remote.None? && !local.ToSend?
      ensures r.Done? || r.Blocked? ==> Advanced(old(remote), remote, old(remoteApplied), remoteApplied,
                                                 old(local), local, old(codec.buffered), codec.buffered)
      ensures r.Faulted? ==>
                && old(remote).Some? && remote == old(remote) && remoteApplied == old(remoteApplied)
                && local == old(local) && codec.buffered == old(codec.buffered) + [SettingsAck]
    {
      if remote.Some? {
        var t := codec.Draw();
        match t.ready {
          case IoFailure => return Broke;
          case NotReady => return Blocked;
          case Ready =>
        }
        codec.Buffer(SettingsAck);
        if t.settingsFault.Some? {
          return Faulted(t.settingsFault.value);
        }
        remoteApplied := remoteApplied + [remote.value];
      }
      remote := None;
      match local {
        case ToSend(p) =>
          var t := codec.Draw();
          match t.ready {
            case IoFailure => return Broke;
            case NotReady => return Blocked;
            case Ready =>
              codec.Buffer(SettingsOut(p));
              local := WaitingAck(p);
          }
        case _ =>
      }
      r := Done;
    }
  }

  /** A settings exchange: what waits on either side, the socket's answers and what has been written. */
  datatype Exchange = Exchange(remote: Option<Params>, local: Local, script: Source<Turn>, out: seq<Out>)

  function Drawn(x: Exchange): (r: Exchange) {
    x.(script := Spend(x.script))
  }

  /** Acknowledging the peer's settings, if any wait. */
  function Acknowledge(x: Exchange): (r: (Exchange, Outcome)) {
    if x.remote.None? then (x, Done)
    else
      var t := Next(x.script);
      match t.ready
      case IoFailure => (Drawn(x), Broke)
      case NotReady => (Drawn(x), Blocked)
      case Ready =>
        var acked := Drawn(x).(out := x.out + [SettingsAck]);
        if t.settingsFault.Some? then (acked, Faulted(t.settingsFault.value)) else (acked.(remote := None), Done)
  }

  /** Sending our own, if any wait. */
  function SendOwn(x: Exchange): (r: (Exchange, Outcome)) {
    if !x.local.ToSend? then (x, Done)
    else
      match Next(x.script).ready
      case IoFailure => (Drawn(x), Broke)
      case NotReady => (Drawn(x), Blocked)
      case Ready => (Drawn(x).(local := WaitingAck(x.local.params), out := x.out + [SettingsOut(x.local.params)]), Done)
  }

  function Send(x: Exchange): (r: (Exchange, Outcome)) {
    var (y, r) := Acknowledge(x);
    if r.Done? then SendOwn(y) else (y, r)
  }

  /** Either nothing was acknowledged yet, or it was acknowledged and applied, once; then ours may have gone out. */
  ghost predicate Advanced(remote: Option<Params>, remote': Option<Params>, applied: seq<Params>, applied': seq<Params>,
                           local: Local, local': Local, out: seq<Out>, out': seq<Out>) {
    if remote.Some? && remote'.Some? then remote' == remote && applied' == applied && local' == local && out' == out
    else
      && remote'.None?
      && applied' == (if remote.Some? then applied + [remote.value] else applied)
      && var acked := if remote.Some? then out + [SettingsAck] else out;
         (local' == local && out' == acked)
         || (local.ToSend? && local' == WaitingAck(local.params) && out' == acked + [SettingsOut(local.params)])
  }
}

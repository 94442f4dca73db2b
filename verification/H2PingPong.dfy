/** Answering PINGs and sending the shutdown PING (section 6.7 of RFC 7540). */
module H2PingPong {
  import opened Wrappers
  import opened Octets
  import opened Supply
  import opened H2Codec

  datatype PendingPing = PendingPing(payload: Bytes, sent: bool)

  datatype ReceivedPing = MustAck | Unknown | Shutdown

  class PingPong {
    var pendingPing: Option<PendingPing>
    var pendingPong: Option<Bytes>

    ghost predicate Valid()
      reads this
    {
      pendingPing.Some? ==> pendingPing.value.payload == SHUTDOWN
    }

    constructor ()
      ensures Valid() && pendingPing.None? && pendingPong.None?
    {
      pendingPing, pendingPong := None, None;
    }

    method PingShutdown()
      requires pendingPing.None?
      modifies this`pendingPing
      ensures pendingPing == Some(PendingPing(SHUTDOWN, false)) && Valid()
    {
      pendingPing := Some(PendingPing(SHUTDOWN, false));
    }

    /** A PING is remembered until answered; the ack of the shutdown PING ends the wait for it. */
    method RecvPing(ack: bool, payload: Bytes) returns (r: ReceivedPing)
      requires Valid() && pendingPong.None?
      modifies this
      ensures Valid()
      ensures pendingPong == if ack then None else Some(payload)
      ensures r.MustAck? <==> !ack
      ensures r.Shutdown? <==> ack && old(pendingPing).Some? && payload == SHUTDOWN
      ensures pendingPing == if r.Shutdown? then None else old(pendingPing)
    {
      if ack {
        if pendingPing.Some? {
          var pending := pendingPing.value;
          if pending.payload == payload {
            pendingPing := None;
            assert pending.payload == SHUTDOWN;
            return Shutdown;
          }
        }
        return Unknown;
      }
      pendingPong := Some(payload);
      r := MustAck;
    }

    method SendPendingPong(codec: Codec) returns (r: Readiness)
      modifies this`pendingPong, codec`script, codec`buffered
      ensures old(pendingPong).None? ==> r.Ready? && codec.script == old(codec.script)
      ensures old(pendingPong).Some? ==> r == Next(old(codec.script)).ready && codec.script == Spend(old(codec.script))
      ensures r.Ready? ==> pendingPong.None?
      ensures r.Ready? ==>
                codec.buffered == if old(pendingPong).Some?
                                  then old(codec.buffered) + [PongOut(old(pendingPong).value)]
                                  else old(codec.buffered)
      ensures !r.Ready? ==> codec.buffered == old(codec.buffered)
      ensures pendingPong == if r.NotReady? then old(pendingPong) else None
    {
      if pendingPong.Some? {
        var pong := pendingPong.value;
        pendingPong := None;
        var t := codec.Draw();
        match t.ready {
          case IoFailure => return IoFailure;
          case NotReady =>
            pendingPong := Some(pong);
            return NotReady;
          case Ready =>
            codec.Buffer(PongOut(pong));
        }
      }
      r := Ready;
    }

    /** Writes the shutdown PING once, or else a PING the user asked for. */
    method SendPendingPing(codec: Codec) returns (r: Readiness, ghost written: seq<Bytes>)
      requires Valid()
      modifies this`pendingPing, codec`script, codec`buffered
      ensures Valid()
      ensures old(pendingPing).Some? && old(pendingPing).value.sent ==> r.Ready? && codec.script == old(codec.script)
      ensures old(pendingPing).Some? && !old(pendingPing).value.sent ==>
                r == Next(old(codec.script)).ready && codec.script == Spend(old(codec.script))
      ensures old(pendingPing).None? ==>
                && codec.script == Spend(old(codec.script))
                && r == (if Next(old(codec.script)).userPing then Next(old(codec.script)).ready else Ready)
                && (written == [USER] <==> Next(old(codec.script)).userPing && r.Ready?)
      ensures r.Ready? && old(pendingPing).Some? ==>
                && pendingPing == Some(PendingPing(SHUTDOWN, true))
                && written == if old(pendingPing).value.sent then [] else [SHUTDOWN]
      ensures old(pendingPing).None? ==> pendingPing.None? && (written == [] || written == [USER])
      ensures !r.Ready? ==> pendingPing == old(pendingPing) && written == []
      ensures codec.buffered
              == if written == [] then old(codec.buffered) else old(codec.buffered) + [PingOut(written[0])]
    {
      written := [];
      if pendingPing.Some? {
        if !pendingPing.value.sent {
          var t := codec.Draw();
          match t.ready {
            case IoFailure => return IoFailure, [];
            case NotReady => return NotReady, [];
            case Ready =>
              codec.Buffer(PingOut(pendingPing.value.payload));
              written := [pendingPing.value.payload];
              pendingPing := Some(pendingPing.value.(sent := true));
          }
        }
      } else {
        var t := codec.Draw();
        if t.userPing {
          match t.ready {
            case IoFailure => return IoFailure, [];
            case NotReady => return NotReady, [];
            case Ready =>
              codec.Buffer(PingOut(USER));
              written := [USER];
          }
        }
      }
      r := Ready;
    }
  }
}

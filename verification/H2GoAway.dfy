/** Sending GOAWAY frames (section 6.8 of RFC 7540). */
module H2GoAway {
  import opened Wrappers
  import opened Supply
  import opened H2Codec

  /** A GOAWAY to send, or the memory of one. */
  datatype Notice = Notice(id: nat, reason: nat)

  datatype Progress = Blocked | Broke | Idle | Sent(reason: nat)

  class GoAway {
    var closeNow: bool
    var goingAway: Option<Notice>
    var isUserInitiated: bool
    var pending: Option<Notice>

    /** What is pending is what was last decided, and closing at once implies a decision. */
    ghost predicate Valid()
      reads this
    {
      && (pending.Some? ==> goingAway == pending)
      && (closeNow ==> goingAway.Some?)
      && (isUserInitiated ==> closeNow)
    }

    constructor ()
      ensures Valid() && !closeNow && goingAway.None? && pending.None? && !isUserInitiated
    {
      closeNow, goingAway, isUserInitiated, pending := false, None, false, None;
    }

    /** Enqueues a GOAWAY; ids must not rise. */
    method Schedule(f: Notice)
      requires Valid() && (goingAway.Some? ==> f.id <= goingAway.value.id)
      modifies this`goingAway, this`pending
      ensures Valid() && goingAway == pending == Some(f)
    {
      goingAway := Some(f);
      pending := Some(f);
    }

    /** Enqueues a GOAWAY unless the same one was decided already, and closes. */
    method GoAwayNow(f: Notice)
      requires Valid() && (goingAway.Some? ==> f.id <= goingAway.value.id)
      modifies this`closeNow, this`goingAway, this`pending
      ensures Valid() && closeNow && goingAway == Some(f)
      ensures old(goingAway) == Some(f) ==> pending == old(pending)
      ensures old(goingAway) != Some(f) ==> pending == Some(f)
    {
      if goingAway.Some? {
        if goingAway.value.id == f.id && goingAway.value.reason == f.reason {
          closeNow := true;
          return;
        }
      }
      Schedule(f);
      closeNow := true;
    }

    method GoAwayFromUser(f: Notice)
      requires Valid() && (goingAway.Some? ==> f.id <= goingAway.value.id)
      modifies this
      ensures Valid() && closeNow && isUserInitiated && goingAway == Some(f)
      ensures pending == if old(goingAway) == Some(f) then old(pending) else Some(f)
    {
      GoAwayNow(f);
      isUserInitiated := true;
    }

    predicate ShouldCloseNow()
      reads this
    {
      pending.None? && closeNow
    }

    predicate ShouldCloseOnIdle()
      reads this
    {
      !closeNow && goingAway.Some? && goingAway.value.id != MAX_STREAM_ID
    }

    /** Writes a pending GOAWAY.  A connection that must close always has a reason to report. */
    method SendPending(codec: Codec) returns (p: Progress)
      requires Valid()
      modifies this`pending, codec`script, codec`buffered
      ensures !p.Broke? ==> Valid()
      ensures old(pending).None? ==>
                codec.script == old(codec.script) && (if closeNow then p.Sent? else p.Idle?)
      ensures old(pending).Some? ==>
                && codec.script == Spend(old(codec.script))
                && match Next(old(codec.script)).ready {
                  case Ready => p.Sent?
                  case NotReady => p.Blocked?
                  case IoFailure => p.Broke?
                }
      ensures p.Blocked? || p.Broke? ==> codec.buffered == old(codec.buffered)
      ensures p.Blocked? ==> pending == old(pending)
      ensures p.Broke? ==> pending.None?
      ensures p.Idle? ==> old(pending).None? && pending.None? && !closeNow && codec.buffered == old(codec.buffered)
      ensures p.Sent? ==> pending.None? && goingAway.Some? && p.reason == goingAway.value.reason
      ensures p.Sent? ==>
                codec.buffered == if old(pending).Some?
                                  then old(codec.buffered) + [GoAwayOut(goingAway.value.id, goingAway.value.reason)]
                                  else old(codec.buffered)
    {
      if pending.Some? {
        var frame := pending.value;
        pending := None;
        var t := codec.Draw();
        match t.ready {
          case IoFailure =>
            return Broke;
          case NotReady =>
            pending := Some(frame);
            return Blocked;
          case Ready =>
            codec.Buffer(GoAwayOut(frame.id, frame.reason));
            return Sent(frame.reason);
        }
      } else if ShouldCloseNow() {
        return Sent(goingAway.value.reason);
      }
      p := Idle;
    }
  }
}

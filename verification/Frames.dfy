/** What the communications thread never touches. */
module Frames {
  import opened Bytes
  import opened Protocol
  import opened System

  /** The emulator thread's own state is as it was. */
  predicate Untouched(s: State, t: State) {
    && t.selected == s.selected && t.emu == s.emu && t.answers == s.answers && t.reused == s.reused
    && |t.conns| == |s.conns|
  }

  lemma ReadUntouched(s: State, fd: int)
    ensures Untouched(s, Consume(s, fd)) && Consume(s, fd).registry == s.registry
    ensures Untouched(s, Reject(Consume(s, fd), fd)) && Reject(Consume(s, fd), fd).registry == s.registry
  {
  }

  lemma WriteUntouched(s: State, fd: int, m: Msg)
    ensures Untouched(s, Push(s, fd, m)) && Push(s, fd, m).registry == s.registry
    ensures Untouched(s, Reject(s, fd)) && Reject(s, fd).registry == s.registry
    ensures Untouched(s, Reject(Push(s, fd, m), fd)) && Reject(Push(s, fd, m), fd).registry == s.registry
  {
  }

  lemma VersionUntouched(s: State, fd: int)
    ensures Untouched(s, AwaitVersionDo(s, fd)) && AwaitVersionDo(s, fd).registry == s.registry
    ensures Untouched(s, SendVersionDo(s, fd)) && SendVersionDo(s, fd).registry == s.registry
  {
    ReadUntouched(s, fd);
    WriteUntouched(s, fd, [API_VERSION]);
  }

  lemma AidUntouched(s: State, fd: int, aid: seq<byte>)
    ensures Untouched(s, AwaitAidDo(s, fd)) && AwaitAidDo(s, fd).registry == s.registry
    ensures Untouched(s, LookupDo(s, fd, aid)) && LookupDo(s, fd, aid).registry == s.registry
    ensures Untouched(s, AcknowledgeDo(s, fd, aid)) && AcknowledgeDo(s, fd, aid).registry == s.registry
  {
    ReadUntouched(s, fd);
    AcknowledgeUntouched(s, fd, aid);
  }

  lemma AcknowledgeUntouched(s: State, fd: int, aid: seq<byte>)
    ensures Untouched(s, AcknowledgeDo(s, fd, aid)) && AcknowledgeDo(s, fd, aid).registry == s.registry
  {
    WriteUntouched(s, fd, [EDNA_OK]);
  }

  lemma DropUntouched(s: State, fd: int)
    ensures Untouched(s, Unregister(s, fd))
  {
  }

  lemma AdvanceUntouched(s: State)
    requires CommCan(s, Advance)
    ensures Untouched(s, NewClientDo(s))
    ensures !s.comm.Insert? && !s.comm.Dropping? ==> NewClientDo(s).registry == s.registry
  {
    match s.comm {
      case AwaitVersion(fd) => VersionUntouched(s, fd);
      case SendVersion(fd) => VersionUntouched(s, fd);
      case AwaitAid(fd) => AidUntouched(s, fd, []);
      case Lookup(fd, aid) => AidUntouched(s, fd, aid);
      case Acknowledge(fd, aid) => AidUntouched(s, fd, aid);
      case Refuse(fd) => WriteUntouched(s, fd, [AID_EXISTS]);
      case Insert(_, _) =>
      case Dropping(fd) => DropUntouched(s, fd);
    }
  }

  /** The communications thread changes nothing of the emulator thread's, and the registry only
      when it inserts or drops a client. */
  lemma CommUntouched(s: State, act: CommAct)
    requires CommCan(s, act)
    ensures var t := CommDo(s, act);
      && t.selected == s.selected && t.emu == s.emu && t.answers == s.answers && |t.conns| == |s.conns|
      && (!(act.Advance? && (s.comm.Insert? || s.comm.Dropping?)) ==> t.registry == s.registry)
  {
    match act {
      case Advance => AdvanceUntouched(s);
      case Handle(fd) => ReadUntouched(s, fd);
      case SelectListening =>
      case SelectReady(_) =>
      case Accept(_) =>
      case AcceptFails =>
      case NothingToHandle =>
    }
  }

  // ----- The emulator thread -----------------------------------------------------------------

  /** How the call in progress moves on; only its end touches the answers or the selection. */
  predicate MovesOn(s: State, t: State) {
    match s.emu
    case PowerWanted(_) => t.emu.Power? && t.answers == s.answers && t.selected == s.selected
    case PowerSent(_, _, _) => t.emu.Power? && t.answers == s.answers && t.selected == s.selected
    case Wanted(apdu, card) => t.emu == Locked(apdu, card) && t.answers == s.answers && t.selected == s.selected
    case Locked(apdu, card) =>
      && (t.emu == Failed(apdu, card) || (t.emu.Sent? && t.emu.apdu == apdu && t.emu.card == card))
      && t.answers == s.answers && t.selected == s.selected
    case Sent(apdu, card, _, _) =>
      && t.selected == s.selected
      && (if ReadBy(s, s.selected).None? then t.emu == Failed(apdu, card) && t.answers == s.answers
          else t.emu == Idle && t.answers == s.answers + [Answer(apdu, card, ReadBy(s, s.selected), s.reused)])
    case Failed(apdu, card) =>
      && t.emu == Idle && t.selected == NO_APP_SELECTED
      && t.answers == s.answers + [Answer(apdu, card, None, s.reused)]
    case _ => false
  }

  lemma ProceedMovesOn(s: State, less: (seq<byte>, seq<byte>) -> bool)
    requires EmuCan(s, less, Proceed)
    ensures MovesOn(s, ProceedDo(s, less)) && |ProceedDo(s, less).conns| == |s.conns|
  {
    match s.emu {
      case PowerWanted(_) =>
      case PowerSent(_, _, fd) => ReadUntouched(s, fd);
      case Wanted(_, _) =>
      case Locked(apdu, _) => WriteUntouched(s, s.selected, [TRANSCEIVE_APDU] + apdu);
      case Sent(_, _, _, _) => ReadUntouched(s, s.selected);
      case Failed(_, _) => DropUntouched(s, s.selected);
    }
  }

  lemma VisitMovesOn(s: State, less: (seq<byte>, seq<byte>) -> bool, aid: seq<byte>)
    requires EmuCan(s, less, Visit(aid))
    ensures var t := EmuDo(s, less, Visit(aid));
      && (t.emu.Power? || t.emu.PowerSent?) && t.answers == s.answers && t.selected == s.selected
      && |t.conns| == |s.conns|
  {
    WriteUntouched(s, s.registry[aid], [s.emu.kind]);
  }
}

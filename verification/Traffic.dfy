/** What each step sends to each connection. */
module Traffic {
  import opened Bytes
  import opened Protocol
  import opened System

  /** The client's side is as it was, except that `ms` have been sent to it. */
  predicate Receives(c: Conn, d: Conn, ms: seq<Msg>) {
    && d.lib == c.lib && d.aid == c.aid && d.phase == c.phase && d.hist == c.hist && (Clean(d) ==> Clean(c))
    && (c.fd >= 0 ==> d.fd == c.fd || d.shut) && (c.shut ==> d.shut)
    && d.down == c.down + ms
  }

  ghost predicate Sends(s: State, t: State, i: nat, ms: seq<Msg>)
    requires i < |s.conns|
  {
    i < |t.conns| && Receives(s.conns[i], t.conns[i], ms)
  }

  lemma SendsOn(s: State, t: State, u: State, i: nat, ms: seq<Msg>)
    requires i < |s.conns| && Sends(s, t, i, ms) && Sends(t, u, i, [])
    ensures Sends(s, u, i, ms)
  {
  }

  lemma CloseSends(s: State, fd: int, i: nat)
    requires i < |s.conns|
    ensures Sends(s, Reject(s, fd), i, []) && Sends(s, Unregister(s, fd), i, [])
  {
  }

  lemma ConsumeSends(s: State, fd: int, i: nat)
    requires i < |s.conns|
    ensures Sends(s, Consume(s, fd), i, [])
  {
  }

  lemma ReadSends(s: State, fd: int, i: nat)
    requires i < |s.conns|
    ensures Sends(s, Consume(s, fd), i, []) && Sends(s, Reject(Consume(s, fd), fd), i, [])
  {
    ConsumeSends(s, fd, i);
    CloseSends(Consume(s, fd), fd, i);
    SendsOn(s, Consume(s, fd), Reject(Consume(s, fd), fd), i, []);
  }

  lemma PushSends(s: State, fd: int, m: Msg, i: nat)
    requires i < |s.conns|
    ensures Sends(s, Push(s, fd, m), i, if Writable(s, fd) && s.open[fd] == i then [m] else [])
  {
  }

  // ----- The communications thread -----------------------------------------------------------

  predicate IsGreeting(m: Msg) {
    m == [API_VERSION] || m == [EDNA_OK] || m == [AID_EXISTS]
  }

  /** Connection `i` is sent nothing or, if `fd` is its descriptor, one frame of the handshake. */
  ghost predicate Greets(s: State, t: State, i: nat, fd: int)
    requires i < |s.conns|
  {
    || Sends(s, t, i, [])
    || (IsOpen(s, fd) && s.open[fd] == i && exists m :: IsGreeting(m) && Sends(s, t, i, [m]))
  }

  /** The descriptor of the handshake in which the daemon is about to write, if there is one. */
  function Greeted(comm: Comm): int {
    match comm
    case SendVersion(fd) => fd
    case Acknowledge(fd, _) => fd
    case Refuse(fd) => fd
    case _ => -1
  }

  lemma AwaitVersionSends(s: State, fd: int, i: nat)
    requires i < |s.conns|
    ensures Sends(s, AwaitVersionDo(s, fd), i, [])
  {
    ReadSends(s, fd, i);
  }

  lemma AwaitAidSends(s: State, fd: int, i: nat)
    requires i < |s.conns|
    ensures Sends(s, AwaitAidDo(s, fd), i, [])
  {
    ReadSends(s, fd, i);
  }

  lemma LookupSends(s: State, fd: int, aid: seq<byte>, i: nat)
    requires i < |s.conns|
    ensures Sends(s, LookupDo(s, fd, aid), i, [])
  {
  }

  lemma SendVersionGreets(s: State, fd: int, i: nat)
    requires i < |s.conns|
    ensures Greets(s, SendVersionDo(s, fd), i, fd)
  {
    PushSends(s, fd, [API_VERSION], i);
    CloseSends(s, fd, i);
    assert IsGreeting([API_VERSION]);
  }

  lemma AcknowledgeGreets(s: State, fd: int, aid: seq<byte>, i: nat)
    requires i < |s.conns|
    ensures Greets(s, AcknowledgeDo(s, fd, aid), i, fd)
  {
    PushSends(s, fd, [EDNA_OK], i);
    CloseSends(s, fd, i);
    assert IsGreeting([EDNA_OK]);
  }

  lemma RefuseGreets(s: State, fd: int, i: nat)
    requires i < |s.conns|
    ensures Greets(s, Reject(Push(s, fd, [AID_EXISTS]), fd), i, fd)
  {
    PushSends(s, fd, [AID_EXISTS], i);
    CloseSends(Push(s, fd, [AID_EXISTS]), fd, i);
    assert IsGreeting([AID_EXISTS]);
  }

  lemma AdvanceGreets(s: State, i: nat)
    requires CommCan(s, Advance) && i < |s.conns|
    ensures Greets(s, NewClientDo(s), i, Greeted(s.comm))
  {
    match s.comm {
      case AwaitVersion(fd) => AwaitVersionSends(s, fd, i);
      case SendVersion(fd) => SendVersionGreets(s, fd, i);
      case AwaitAid(fd) => AwaitAidSends(s, fd, i);
      case Lookup(fd, aid) => LookupSends(s, fd, aid, i);
      case Acknowledge(fd, aid) => AcknowledgeGreets(s, fd, aid, i);
      case Refuse(fd) => RefuseGreets(s, fd, i);
      case Insert(_, _) =>
      case Dropping(fd) => CloseSends(s, fd, i);
    }
  }

  /** Who is waiting to be accepted has not been accepted. */
  predicate Unaccepted(s: State, act: CommAct)
    requires CommCan(s, act)
  {
    act.Accept? ==> s.conns[s.backlog[0]].fd < 0
  }

  lemma CommGreets(s: State, act: CommAct, i: nat)
    requires CommCan(s, act) && Unaccepted(s, act) && i < |s.conns|
    ensures Greets(s, CommDo(s, act), i, Greeted(s.comm))
  {
    match act {
      case Advance => AdvanceGreets(s, i);
      case Handle(fd) => ReadSends(s, fd, i);
      case SelectListening =>
      case SelectReady(_) =>
      case Accept(_) =>
      case AcceptFails =>
      case NothingToHandle =>
    }
  }

  // ----- The emulator thread -----------------------------------------------------------------

  /** The command a step of the emulator thread sends to connection `i`, if any. */
  function CommandBy(s: State, act: EmuAct, i: nat): seq<Msg> {
    match act
    case Visit(aid) =>
      if s.emu.Power? && aid in s.registry && Writable(s, s.registry[aid]) && s.open[s.registry[aid]] == i
      then [[s.emu.kind]]
      else []
    case Proceed =>
      if s.emu.Locked? && Writable(s, s.selected) && s.open[s.selected] == i
      then [[TRANSCEIVE_APDU] + s.emu.apdu]
      else []
    case _ => []
  }

  lemma LockedSends(s: State, less: (seq<byte>, seq<byte>) -> bool, i: nat)
    requires s.emu.Locked? && i < |s.conns|
    ensures Sends(s, ProceedDo(s, less), i, CommandBy(s, Proceed, i))
  {
    PushSends(s, s.selected, [TRANSCEIVE_APDU] + s.emu.apdu, i);
  }

  lemma SentSends(s: State, less: (seq<byte>, seq<byte>) -> bool, i: nat)
    requires s.emu.Sent? && EmuCan(s, less, Proceed) && i < |s.conns|
    ensures Sends(s, ProceedDo(s, less), i, [])
  {
    ReadSends(s, s.selected, i);
  }

  lemma FailedSends(s: State, less: (seq<byte>, seq<byte>) -> bool, i: nat)
    requires s.emu.Failed? && i < |s.conns|
    ensures Sends(s, ProceedDo(s, less), i, [])
  {
    CloseSends(s, s.selected, i);
  }

  lemma ProceedSends(s: State, less: (seq<byte>, seq<byte>) -> bool, i: nat)
    requires EmuCan(s, less, Proceed) && i < |s.conns|
    ensures Sends(s, ProceedDo(s, less), i, CommandBy(s, Proceed, i))
  {
    match s.emu {
      case PowerWanted(_) =>
      case PowerSent(_, _, fd) => ReadSends(s, fd, i);
      case Wanted(_, _) =>
      case Locked(_, _) => LockedSends(s, less, i);
      case Sent(_, _, _, _) => SentSends(s, less, i);
      case Failed(_, _) => FailedSends(s, less, i);
    }
  }

  /** Commands are sent by power events and exchanges only, and each to one connection. */
  lemma EmuSends(s: State, less: (seq<byte>, seq<byte>) -> bool, act: EmuAct, i: nat)
    requires EmuCan(s, less, act) && i < |s.conns|
    ensures Sends(s, EmuDo(s, less, act), i, CommandBy(s, act, i))
  {
    match act {
      case Visit(aid) => PushSends(s, s.registry[aid], [s.emu.kind], i);
      case Proceed => ProceedSends(s, less, i);
      case PowerEvent(_) =>
      case Ask(_) =>
      case PassDone =>
    }
  }
}

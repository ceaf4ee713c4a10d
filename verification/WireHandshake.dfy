/** The handshakes of the step machine, with the clients' own steps in between, are those of the
    daemon's class. */
module WireHandshake {
  import opened Bytes
  import opened Protocol
  import opened Framing
  import opened System
  import opened Invariant
  import opened Runs
  import opened Frames
  import opened Traffic
  import opened OnTheWire
  import A = Agreement
  import C = ClientSteps
  import D = CommThread
  import N = Transport

  // ----- Steps of the handshake --------------------------------------------------------------

  /** The handshake moves on, and the registry and the descriptors stay. */
  predicate Onward(s: State, t: State, comm: Comm) {
    t.comm == comm && t.registry == s.registry && t.selected == s.selected && t.open == s.open
  }

  /** The handshake is over and its descriptor closed. */
  predicate Over(s: State, t: State, fd: int) {
    t.comm == Selecting && t.registry == s.registry && t.selected == s.selected && t.open == s.open - {fd}
  }

  lemma VersionReads(s: State, fd: int, i: nat)
    requires s.comm == AwaitVersion(fd) && IsOpen(s, fd) && i == s.open[fd] && Readable(s, fd)
    ensures var (t, up) := (NewClientDo(s), s.conns[i].up);
      if up == [] then EndClosed(s, i) && Still(s, t) && Over(s, t, fd)
      else
        && ReadOne(s, t, i, up[0])
        && if up[0] == [GET_API_VERSION] then Onward(s, t, SendVersion(fd)) else Over(s, t, fd)
  {
  }

  lemma VersionWrites(s: State, fd: int, i: nat)
    requires s.comm == SendVersion(fd) && IsOpen(s, fd) && i == s.open[fd]
    ensures var t := NewClientDo(s);
      if EndClosed(s, i) then Still(s, t) && Over(s, t, fd)
      else Wrote(s, t, i, [API_VERSION]) && Onward(s, t, AwaitAid(fd))
  {
  }

  lemma AidReads(s: State, fd: int, i: nat)
    requires s.comm == AwaitAid(fd) && IsOpen(s, fd) && i == s.open[fd] && Readable(s, fd)
    ensures var (t, up) := (NewClientDo(s), s.conns[i].up);
      if up == [] then EndClosed(s, i) && Still(s, t) && Over(s, t, fd)
      else
        && ReadOne(s, t, i, up[0])
        && if RequestedAid(up[0]).Some? then Onward(s, t, Lookup(fd, RequestedAid(up[0]).value)) else Over(s, t, fd)
  {
  }

  lemma AidLooksUp(s: State, fd: int, aid: seq<byte>, i: nat)
    requires s.comm == Lookup(fd, aid) && IsOpen(s, fd) && i == s.open[fd]
    ensures var t := NewClientDo(s);
      Still(s, t) && Onward(s, t, if aid in s.registry then Refuse(fd) else Acknowledge(fd, aid))
  {
  }

  lemma RefusalWrites(s: State, fd: int, i: nat)
    requires s.comm == Refuse(fd) && IsOpen(s, fd) && i == s.open[fd]
    ensures var t := NewClientDo(s);
      Over(s, t, fd) && if EndClosed(s, i) then Still(s, t) else Wrote(s, t, i, [AID_EXISTS])
  {
  }

  lemma AcknowledgeWrites(s: State, fd: int, aid: seq<byte>, i: nat)
    requires s.comm == Acknowledge(fd, aid) && IsOpen(s, fd) && i == s.open[fd]
    ensures var t := NewClientDo(s);
      if EndClosed(s, i) then Still(s, t) && Over(s, t, fd)
      else Wrote(s, t, i, [EDNA_OK]) && Onward(s, t, Insert(fd, aid))
  {
  }

  lemma InsertStays(s: State, fd: int, aid: seq<byte>)
    requires s.comm == Insert(fd, aid)
    ensures var t := NewClientDo(s);
      && Still(s, t) && t.comm == Selecting && t.registry == s.registry[aid := fd]
      && t.selected == s.selected && t.open == s.open
  {
  }

  // ----- The handshake on the wire -----------------------------------------------------------

  /** The version request has been read. */
  predicate Asked(d0: D.Daemon, d: D.Daemon, fd: int) {
    && d == d0.(streams := d.streams) && d.streams.tx == d0.streams.tx
    && N.OnlyAt(d0.streams.rx, d.streams.rx, fd)
    && fd in d0.streams.rx && fd in d.streams.rx && fd in d0.streams.tx
    && Unframe(d0.streams.rx[fd]) == Some(([GET_API_VERSION], d.streams.rx[fd]))
  }

  /** And answered. */
  predicate Told(d0: D.Daemon, d: D.Daemon, fd: int) {
    && fd in d0.streams.tx
    && Asked(d0, d.(streams := d.streams.(tx := d0.streams.tx)), fd)
    && d.streams.tx == d0.streams.tx[fd := d0.streams.tx[fd] + Frame([API_VERSION])]
  }

  /** The registration request has been read. */
  predicate Requested(mid: D.Daemon, d: D.Daemon, fd: int, aid: seq<byte>) {
    && d == mid.(streams := d.streams) && d.streams.tx == mid.streams.tx
    && N.OnlyAt(mid.streams.rx, d.streams.rx, fd)
    && fd in mid.streams.rx && fd in d.streams.rx && fd in mid.streams.tx
    && Unframe(mid.streams.rx[fd]).Some?
    && var (req, rest) := Unframe(mid.streams.rx[fd]).value;
       RequestedAid(req) == Some(aid) && rest == d.streams.rx[fd]
  }

  /** Where the handshake of `fd` is, from `d0` at its start, with `mid` after the version. */
  ghost predicate HandshakeAt(live: bool, d0: D.Daemon, mid: D.Daemon, d: D.Daemon, comm: Comm, fd: int) {
    match comm
    case AwaitVersion(f) => f == fd && d == d0
    case SendVersion(f) => f == fd && Asked(d0, d, fd)
    case AwaitAid(f) => f == fd && Told(d0, mid, fd) && d == mid
    case Lookup(f, aid) => f == fd && Told(d0, mid, fd) && Requested(mid, d, fd, aid)
    case Refuse(f) => f == fd && Told(d0, mid, fd) && exists aid :: Requested(mid, d, fd, aid) && aid in mid.registry
    case Acknowledge(f, aid) => f == fd && Told(d0, mid, fd) && Requested(mid, d, fd, aid) && aid !in mid.registry
    case Insert(f, aid) =>
      && f == fd && Told(d0, mid, fd) && aid !in mid.registry
      && Requested(mid, d.(streams := d.streams.(tx := mid.streams.tx)), fd, aid)
      && d.streams.tx == mid.streams.tx[fd := mid.streams.tx[fd] + Frame([EDNA_OK])]
    case Selecting =>
      fd in d0.streams.rx && fd in d0.streams.tx && D.NewClientDone(live, d0, d, fd)
    case _ => false
  }

  // What one step makes of it.

  /** The client's end is closed before it has been told the version. */
  lemma LostEarly(d0: D.Daemon, d: D.Daemon, fd: int)
    requires d == d0 || Asked(d0, d, fd)
    requires fd in d0.streams.rx && fd in d0.streams.tx
    ensures D.NewClientDone(false, d0, d.(open := d.open - {fd}), fd)
  {
    D.TurnedAway(false, d0, d.(open := d.open - {fd}), fd);
  }

  /** The registration half ends without a registration. */
  lemma NotRegistered(live: bool, d0: D.Daemon, mid: D.Daemon, d: D.Daemon, fd: int)
    requires Told(d0, mid, fd) && fd in d0.open && fd in mid.streams.rx && fd in mid.streams.tx
    requires D.RegisterDone(live, mid, d, fd, false)
    ensures D.NewClientDone(live, d0, d.(open := d.open - {fd}), fd)
  {
    D.Registered(live, d0, mid, d, fd, false);
  }

  /** Or with one. */
  lemma IsRegistered(live: bool, d0: D.Daemon, mid: D.Daemon, d: D.Daemon, fd: int, aid: seq<byte>)
    requires Told(d0, mid, fd) && fd in d0.open && aid !in mid.registry && aid != []
    requires Requested(mid, d.(streams := d.streams.(tx := mid.streams.tx)), fd, aid)
    requires d.streams.tx == mid.streams.tx[fd := mid.streams.tx[fd] + Frame([EDNA_OK])]
    ensures D.NewClientDone(live, d0, d.(registry := d.registry[aid := fd]), fd)
  {
    D.Registered(live, d0, mid, d.(registry := d.registry[aid := fd]), fd, true);
  }

  // What the registration half has done when it ends without a registration.

  lemma RequestRefused(live: bool, mid: D.Daemon, d: D.Daemon, fd: int, m: Msg)
    requires fd in mid.streams.rx && fd in mid.streams.tx && fd in d.streams.rx
    requires d == mid.(streams := d.streams) && d.streams.tx == mid.streams.tx
    requires N.OnlyAt(mid.streams.rx, d.streams.rx, fd)
    requires Unframe(mid.streams.rx[fd]) == Some((m, d.streams.rx[fd])) && RequestedAid(m).None?
    ensures D.RegisterDone(live, mid, d, fd, false)
  {
  }

  /** Nothing has been written because the client is gone. */
  lemma LostLater(mid: D.Daemon, d: D.Daemon, fd: int)
    requires fd in mid.streams.rx && fd in mid.streams.tx
    requires d == mid.(streams := d.streams) && d.streams.tx == mid.streams.tx
    requires N.OnlyAt(mid.streams.rx, d.streams.rx, fd)
    ensures D.RegisterDone(false, mid, d, fd, false)
  {
  }

  lemma Refused(live: bool, mid: D.Daemon, d: D.Daemon, d': D.Daemon, fd: int, aid: seq<byte>)
    requires Requested(mid, d, fd, aid) && aid in mid.registry
    requires d' == d.(streams := d.streams.(tx := d.streams.tx[fd := d.streams.tx[fd] + Frame([AID_EXISTS])]))
    ensures D.RegisterDone(live, mid, d', fd, false)
  {
  }

  // ----- The handshake in a run --------------------------------------------------------------

  /** A part of a run in which the communications thread registers the client on `fd`, while other
      clients and this one do what they like and the emulator thread does nothing. */
  ghost predicate Registers(w: World, p: Part, fd: int) {
    && IsRun(w, p.ss, p.steps) && IsPart(p) && p.fds == p.ss[p.a].open && fd in p.fds
    && p.ss[p.a].comm == AwaitVersion(fd)
    && (forall k | p.a <= k < p.b :: p.steps[k].Client? || p.steps[k].Join? || p.steps[k] == Communication(Advance))
    && (forall k | p.a <= k < p.b :: !p.ss[k].comm.Selecting?)
  }

  /** Where the handshake is in state `k`. */
  ghost predicate GreetedAt(p: Part, fd: int, mid: D.Daemon, k: nat)
    requires IsPart(p) && fd in p.fds && p.a <= k <= p.b
  {
    && HandshakeAt(Lives(p, fd), DaemonAt(p, p.a), mid, DaemonAt(p, k), p.ss[k].comm, fd)
    && (!p.ss[k].comm.Selecting? ==> p.ss[k].open == p.fds)
  }

  /** A step of `new_client` for `fd`, from state `s` to `t`, with the daemon on the wire before and
      after it, and at the start of the handshake. */
  datatype Move = Move(live: bool, fds: map<int, nat>, s: State, t: State, d0: D.Daemon, d: D.Daemon, d': D.Daemon)

  ghost predicate Advances(v: Move, fd: int, mid: D.Daemon) {
    && fd in v.fds && v.s.open == v.fds && v.fds[fd] < |v.s.conns|
    && CommCan(v.s, Advance) && v.t == NewClientDo(v.s)
    && (EndClosed(v.s, v.fds[fd]) ==> !v.live)
    && Linked(v.fds, v.s, v.t, v.d, v.d')
    && HandshakeAt(v.live, v.d0, mid, v.d, v.s.comm, fd)
  }

  ghost predicate Arrives(v: Move, fd: int, mid: D.Daemon) {
    HandshakeAt(v.live, v.d0, mid, v.d', v.t.comm, fd) && (!v.t.comm.Selecting? ==> v.t.open == v.fds)
  }

  /** The daemon after the step, before the descriptor of a failed handshake is closed. */
  function Before(v: Move): D.Daemon {
    v.d'.(open := v.d.open)
  }

  lemma StillDaemon(v: Move, fd: int)
    requires Linked(v.fds, v.s, v.t, v.d, v.d') && Still(v.s, v.t)
    requires Onward(v.s, v.t, v.t.comm) || Over(v.s, v.t, fd)
    ensures Before(v) == v.d
  {
  }

  lemma WroteDaemon(v: Move, fd: int, m: Msg)
    requires Linked(v.fds, v.s, v.t, v.d, v.d') && fd in v.fds && Wrote(v.s, v.t, v.fds[fd], m)
    requires Onward(v.s, v.t, v.t.comm) || Over(v.s, v.t, fd)
    ensures HasWritten(v.d, Before(v), fd, m)
  {
    assert WritesFrame(v.d.streams, v.d'.streams, fd, m);
  }

  lemma ReadDaemon(v: Move, fd: int, m: Msg)
    requires Linked(v.fds, v.s, v.t, v.d, v.d') && fd in v.fds && ReadOne(v.s, v.t, v.fds[fd], m)
    requires Onward(v.s, v.t, v.t.comm) || Over(v.s, v.t, fd)
    requires fd in v.d'.streams.rx
    ensures HasRead(v.d, Before(v), fd, m)
  {
    assert ReadsFrame(v.d.streams, v.d'.streams, fd, m);
  }

  /** The handshake has ended. */
  lemma Ended(v: Move, fd: int, mid: D.Daemon)
    requires Linked(v.fds, v.s, v.t, v.d, v.d') && Over(v.s, v.t, fd)
    requires fd in v.d0.streams.rx && fd in v.d0.streams.tx
    requires D.NewClientDone(v.live, v.d0, Before(v).(open := v.d.open - {fd}), fd)
    ensures Arrives(v, fd, mid)
  {
    assert v.d' == Before(v).(open := v.d.open - {fd});
  }

  /** It goes on. */
  lemma WentOn(v: Move, fd: int, mid: D.Daemon)
    requires Linked(v.fds, v.s, v.t, v.d, v.d') && v.s.open == v.fds && Onward(v.s, v.t, v.t.comm)
    requires HandshakeAt(v.live, v.d0, mid, Before(v), v.t.comm, fd)
    ensures Arrives(v, fd, mid)
  {
    assert v.d' == Before(v);
  }

  // And what the handshake makes of it.

  lemma Tells(d0: D.Daemon, d: D.Daemon, d': D.Daemon, fd: int)
    requires Asked(d0, d, fd) && HasWritten(d, d', fd, [API_VERSION])
    ensures Told(d0, d', fd)
  {
  }

  lemma Acknowledges(mid: D.Daemon, d: D.Daemon, d': D.Daemon, fd: int, aid: seq<byte>)
    requires Requested(mid, d, fd, aid) && HasWritten(d, d', fd, [EDNA_OK])
    ensures Requested(mid, d'.(streams := d'.streams.(tx := mid.streams.tx)), fd, aid)
    ensures d'.streams.tx == mid.streams.tx[fd := mid.streams.tx[fd] + Frame([EDNA_OK])]
  {
  }

  lemma AtAwaitVersion(v: Move, fd: int, mid: D.Daemon)
    requires Advances(v, fd, mid) && v.s.comm == AwaitVersion(fd)
    requires fd in v.d0.streams.rx && fd in v.d0.streams.tx && fd in v.d'.streams.rx
    ensures Arrives(v, fd, mid)
  {
    var up := v.s.conns[v.fds[fd]].up;
    VersionReads(v.s, fd, v.fds[fd]);
    if up == [] {
      StillDaemon(v, fd);
      LostEarly(v.d0, v.d, fd);
      Ended(v, fd, mid);
    } else {
      ReadDaemon(v, fd, up[0]);
      if up[0] != [GET_API_VERSION] {
        D.TurnedAway(v.live, v.d0, Before(v).(open := v.d.open - {fd}), fd);
        Ended(v, fd, mid);
      } else {
        WentOn(v, fd, mid);
      }
    }
  }

  lemma AtSendVersion(v: Move, fd: int, mid: D.Daemon)
    requires Advances(v, fd, mid) && v.s.comm == SendVersion(fd)
    ensures Arrives(v, fd, Before(v))
  {
    VersionWrites(v.s, fd, v.fds[fd]);
    if EndClosed(v.s, v.fds[fd]) {
      StillDaemon(v, fd);
      LostEarly(v.d0, v.d, fd);
      Ended(v, fd, Before(v));
    } else {
      WroteDaemon(v, fd, [API_VERSION]);
      Tells(v.d0, v.d, Before(v), fd);
      WentOn(v, fd, Before(v));
    }
  }

  lemma AtAwaitAid(v: Move, fd: int, mid: D.Daemon)
    requires Advances(v, fd, mid) && v.s.comm == AwaitAid(fd) && fd in v.d0.open && fd in v.d'.streams.rx
    ensures Arrives(v, fd, mid)
  {
    var up := v.s.conns[v.fds[fd]].up;
    AidReads(v.s, fd, v.fds[fd]);
    if up == [] {
      StillDaemon(v, fd);
      LostLater(mid, mid, fd);
      NotRegistered(false, v.d0, mid, mid, fd);
      Ended(v, fd, mid);
    } else {
      ReadDaemon(v, fd, up[0]);
      if RequestedAid(up[0]).None? {
        RequestRefused(v.live, mid, Before(v), fd, up[0]);
        NotRegistered(v.live, v.d0, mid, Before(v), fd);
        Ended(v, fd, mid);
      } else {
        WentOn(v, fd, mid);
      }
    }
  }

  lemma AtLookup(v: Move, fd: int, aid: seq<byte>, mid: D.Daemon)
    requires Advances(v, fd, mid) && v.s.comm == Lookup(fd, aid)
    ensures Arrives(v, fd, mid)
  {
    AidLooksUp(v.s, fd, aid, v.fds[fd]);
    StillDaemon(v, fd);
    WentOn(v, fd, mid);
  }

  lemma AtRefuse(v: Move, fd: int, mid: D.Daemon)
    requires Advances(v, fd, mid) && v.s.comm == Refuse(fd) && fd in v.d0.open
    ensures Arrives(v, fd, mid)
  {
    RefusalWrites(v.s, fd, v.fds[fd]);
    if EndClosed(v.s, v.fds[fd]) {
      StillDaemon(v, fd);
      LostLater(mid, v.d, fd);
      NotRegistered(false, v.d0, mid, v.d, fd);
    } else {
      WroteDaemon(v, fd, [AID_EXISTS]);
      var aid :| Requested(mid, v.d, fd, aid) && aid in mid.registry;
      Refused(v.live, mid, v.d, Before(v), fd, aid);
      NotRegistered(v.live, v.d0, mid, Before(v), fd);
    }
    Ended(v, fd, mid);
  }

  lemma AtAcknowledge(v: Move, fd: int, aid: seq<byte>, mid: D.Daemon)
    requires Advances(v, fd, mid) && v.s.comm == Acknowledge(fd, aid) && fd in v.d0.open
    ensures Arrives(v, fd, mid)
  {
    AcknowledgeWrites(v.s, fd, aid, v.fds[fd]);
    if EndClosed(v.s, v.fds[fd]) {
      StillDaemon(v, fd);
      LostLater(mid, v.d, fd);
      NotRegistered(false, v.d0, mid, v.d, fd);
      Ended(v, fd, mid);
    } else {
      WroteDaemon(v, fd, [EDNA_OK]);
      Acknowledges(mid, v.d, Before(v), fd, aid);
      WentOn(v, fd, mid);
    }
  }

  lemma AtInsert(v: Move, fd: int, aid: seq<byte>, mid: D.Daemon)
    requires Advances(v, fd, mid) && v.s.comm == Insert(fd, aid) && aid != [] && fd in v.d0.open
    ensures Arrives(v, fd, mid)
  {
    InsertStays(v.s, fd, aid);
    IsRegistered(v.live, v.d0, mid, v.d, fd, aid);
    assert v.d' == v.d.(registry := v.d.registry[aid := fd]);
  }

  lemma AtAdvance(v: Move, fd: int, mid: D.Daemon) returns (mid': D.Daemon)
    requires Advances(v, fd, mid) && HandFd(v.s.comm) == {fd} && (v.s.comm.Insert? ==> v.s.comm.aid != [])
    requires fd in v.d0.open && fd in v.d0.streams.rx && fd in v.d0.streams.tx && fd in v.d'.streams.rx
    ensures Arrives(v, fd, mid')
  {
    mid' := mid;
    match v.s.comm {
      case AwaitVersion(_) => AtAwaitVersion(v, fd, mid);
      case SendVersion(_) =>
        AtSendVersion(v, fd, mid);
        mid' := Before(v);
      case AwaitAid(_) => AtAwaitAid(v, fd, mid);
      case Lookup(_, aid) => AtLookup(v, fd, aid, mid);
      case Refuse(_) => AtRefuse(v, fd, mid);
      case Acknowledge(_, aid) => AtAcknowledge(v, fd, aid, mid);
      case Insert(_, aid) => AtInsert(v, fd, aid, mid);
    }
  }

  lemma {:induction false} HandshakeGoes(w: World, p: Part, fd: int, k: nat) returns (mid: D.Daemon)
    requires Registers(w, p, fd) && p.a <= k <= p.b
    ensures GreetedAt(p, fd, mid, k)
  {
    if k == p.a {
      mid := DaemonAt(p, p.a);
    } else {
      var j := k - 1;
      mid := HandshakeGoes(w, p, fd, j);
      mid := HandshakeStep(w, p, fd, mid, j);
    }
  }

  lemma HandshakeStep(w: World, p: Part, fd: int, mid: D.Daemon, k: nat) returns (mid': D.Daemon)
    requires Registers(w, p, fd) && p.a <= k < p.b && GreetedAt(p, fd, mid, k)
    ensures GreetedAt(p, fd, mid', k + 1)
  {
    mid' := mid;
    if p.steps[k] == Communication(Advance) {
      WillAdvance(w, p, fd, mid, k);
      mid' := AtAdvance(MoveAt(p, fd, k), fd, mid);
    } else {
      NotTheirTurn(w, p, fd, mid, k);
    }
  }

  ghost function MoveAt(p: Part, fd: int, k: nat): Move
    requires IsPart(p) && fd in p.fds && p.a <= k < p.b
  {
    Move(Lives(p, fd), p.fds, p.ss[k], p.ss[k + 1], DaemonAt(p, p.a), DaemonAt(p, k), DaemonAt(p, k + 1))
  }

  lemma WillAdvance(w: World, p: Part, fd: int, mid: D.Daemon, k: nat)
    requires Registers(w, p, fd) && p.a <= k < p.b && GreetedAt(p, fd, mid, k)
    requires p.steps[k] == Communication(Advance)
    ensures var v := MoveAt(p, fd, k);
      && Advances(v, fd, mid) && HandFd(v.s.comm) == {fd} && (v.s.comm.Insert? ==> v.s.comm.aid != [])
      && fd in v.d0.open && fd in v.d0.streams.rx && fd in v.d0.streams.tx && fd in v.d'.streams.rx
  {
    CanAdvance(w, p, fd, k);
    StepLinks(p, k);
    HasStreams(p, fd, k);
    InHand(p, fd, mid, k);
  }

  lemma HasStreams(p: Part, fd: int, k: nat)
    requires IsPart(p) && fd in p.fds && p.fds == p.ss[p.a].open && p.a <= k < p.b
    ensures var (d0, d') := (DaemonAt(p, p.a), DaemonAt(p, k + 1));
      fd in d0.open && fd in d0.streams.rx && fd in d0.streams.tx && fd in d'.streams.rx
  {
  }

  lemma InHand(p: Part, fd: int, mid: D.Daemon, k: nat)
    requires IsPart(p) && fd in p.fds && p.a <= k < p.b && GreetedAt(p, fd, mid, k) && !p.ss[k].comm.Selecting?
    ensures HandFd(p.ss[k].comm) == {fd} && p.ss[k].open == p.fds
  {
  }

  lemma NotTheirTurn(w: World, p: Part, fd: int, mid: D.Daemon, k: nat)
    requires Registers(w, p, fd) && p.a <= k < p.b && GreetedAt(p, fd, mid, k)
    requires p.steps[k].Client? || p.steps[k].Join?
    ensures GreetedAt(p, fd, mid, k + 1)
  {
    assert p.ss[k + 1] == Do(w, p.ss[k], p.steps[k]);
    ClientsAside(w, p, k);
  }

  /** What the invariant says about the client of the handshake. */
  lemma CanAdvance(w: World, p: Part, fd: int, k: nat)
    requires Registers(w, p, fd) && p.a <= k < p.b && p.steps[k] == Communication(Advance) && p.ss[k].open == p.fds
    ensures var s := p.ss[k];
      && CommCan(s, Advance) && p.ss[k + 1] == NewClientDo(s)
      && p.fds[fd] < |s.conns| && (s.comm.Insert? ==> s.comm.aid != [])
      && (EndClosed(s, p.fds[fd]) ==> !Lives(p, fd))
  {
    var s := p.ss[k];
    assert Can(w, s, p.steps[k]) && p.ss[k + 1] == Do(w, s, p.steps[k]);
    RunKeeps(w, p.ss, p.steps, k);
    if EndClosed(s, p.fds[fd]) {
      ClosedToTheEnd(w, p, fd, k);
    }
  }

  /** The handshakes of the step machine are those of the daemon's class: in every part of every
      run in which a client is accepted and `new_client` runs to its end, with any steps of that
      client and of others in between, it does to the byte streams, the registry and the
      descriptors what `NewClient` does; reliably so if the client does not close its end. */
  lemma HandshakeOnTheWire(w: World, p: Part, fd: int)
    requires Registers(w, p, fd) && p.ss[p.b].comm.Selecting?
    ensures var d0 := DaemonAt(p, p.a);
      && fd in d0.streams.rx && fd in d0.streams.tx
      && D.NewClientDone(Lives(p, fd), d0, DaemonAt(p, p.b), fd)
  {
    var mid := HandshakeGoes(w, p, fd, p.b);
  }

  // ----- The handshake of a library client ---------------------------------------------------

  /** What a library client has written up to a phase of its handshake. */
  function Script(c: Conn): seq<Msg> {
    match c.phase
    case AskedVersion => [[GET_API_VERSION]]
    case Versioned => [[GET_API_VERSION]]
    case AskedAid => Requests(c)
    case Ready => Requests(c)
    case Busy(_) => Requests(c)
    case _ => []
  }

  function Requests(c: Conn): seq<Msg> {
    if |c.aid| < MAX_FRAME then [[GET_API_VERSION], [REGISTER_AID] + c.aid] else []
  }

  lemma ScriptGrows(app: seq<Input> -> Rapdu, c: Conn, act: ClientAct)
    requires ClientCan(c, act) && !c.phase.Busy? && !c.phase.Rogue? && !HasLeft(ClientDo(app, c, act))
    ensures Script(ClientDo(app, c, act)) == Script(c) + Said(c, ClientDo(app, c, act))
  {
    if act.Write? {
      WriteGrows(app, c);
    } else {
      TakeKeeps(app, c, act);
    }
  }

  lemma WriteGrows(app: seq<Input> -> Rapdu, c: Conn)
    requires ClientCan(c, Write) && !c.phase.Busy? && !HasLeft(ClientDo(app, c, Write))
    ensures Script(ClientDo(app, c, Write)) == Script(c) + Said(c, ClientDo(app, c, Write))
  {
    var m: Msg := if c.phase.Fresh? then [GET_API_VERSION] else [REGISTER_AID] + c.aid;
    assert ClientDo(app, c, Write).up == c.up + [m];
    assert Said(c, ClientDo(app, c, Write)) == [m];
  }

  lemma TakeKeeps(app: seq<Input> -> Rapdu, c: Conn, act: ClientAct)
    requires ClientCan(c, act) && !act.Write? && !c.phase.Rogue? && !HasLeft(ClientDo(app, c, act))
    ensures Script(ClientDo(app, c, act)) == Script(c) && Said(c, ClientDo(app, c, act)) == []
  {
    assert act.Take?;
  }

  /** The client of a handshake is at no command yet. */
  lemma HandshakePhases(w: World, s: State, fd: int, i: nat)
    requires Inv(w, s) && HandFd(s.comm) == {fd} && fd in s.open && i == s.open[fd] && Clean(s.conns[i])
    ensures s.comm.AwaitVersion? ==> !Targets(s.emu, s.selected, fd)
    ensures !Targets(s.emu, s.selected, fd) ==> !s.conns[i].phase.Busy? && !s.conns[i].phase.Rogue?
    ensures s.comm.AwaitVersion? && !HasLeft(s.conns[i]) ==> s.conns[i].up == Script(s.conns[i])
    ensures s.conns[i].fd == fd >= 0
  {
    assert ConnOk(w, s.registry, Seen(s.selected, s.conns[i]), s.comm, s.emu, i, s.conns[i]);
  }

  /** And at the end of the handshake it has asked for its AID. */
  lemma FinalPhase(w: World, s: State, i: nat)
    requires Inv(w, s) && s.comm.Selecting? && i < |s.conns| && Clean(s.conns[i]) && !HasLeft(s.conns[i])
    requires (s.conns[i].fd >= 0 && !Targets(s.emu, s.selected, s.conns[i].fd)) || s.conns[i].shut
    ensures (s.conns[i].phase.AskedAid? || s.conns[i].phase.Ready?) && |s.conns[i].aid| < MAX_FRAME
  {
    assert ConnOk(w, s.registry, Seen(s.selected, s.conns[i]), s.comm, s.emu, i, s.conns[i]);
  }

  /** Whoever is clean and there in the end was so before. */
  lemma StaysMarked(w: World, s: State, step: Step, i: nat)
    requires Descriptors(s) && Can(w, s, step) && i < |s.conns|
    ensures var t := Do(w, s, step);
      && i < |t.conns| && (Clean(t.conns[i]) ==> Clean(s.conns[i])) && (HasLeft(s.conns[i]) ==> HasLeft(t.conns[i]))
      && t.conns[i].aid == s.conns[i].aid
      && (s.conns[i].fd >= 0 ==> t.conns[i].fd == s.conns[i].fd || t.conns[i].shut)
      && (s.conns[i].shut ==> t.conns[i].shut)
  {
    match step {
      case Join(_, _) =>
      case Client(j, act) => C.ClientFrame(w.apps(j), s.conns[j], act);
      case Communication(act) =>
        assert act.Accept? ==> s.backlog[0] in s.backlog;
        CommGreets(s, act, i);
      case Emulator(act) => EmuSends(s, w.less, act, i);
    }
  }

  /** Who is clean in the end, and has not left, was so during the handshake. */
  lemma {:induction false} StoodBefore(w: World, p: Part, fd: int, k: nat)
    requires Registers(w, p, fd) && p.a <= k <= p.b
    requires Clean(p.ss[p.b].conns[p.fds[fd]]) && !HasLeft(p.ss[p.b].conns[p.fds[fd]])
    ensures Clean(p.ss[k].conns[p.fds[fd]]) && !HasLeft(p.ss[k].conns[p.fds[fd]])
    ensures p.ss[k].conns[p.fds[fd]].aid == p.ss[p.b].conns[p.fds[fd]].aid
    decreases p.b - k
  {
    if k < p.b {
      StoodBefore(w, p, fd, k + 1);
      StandsBefore(w, p, p.fds[fd], k);
    }
  }

  lemma StandsBefore(w: World, p: Part, i: nat, k: nat)
    requires IsRun(w, p.ss, p.steps) && k < |p.steps| && There(p.ss, p.steps, k, i)
    requires Clean(p.ss[k + 1].conns[i]) && !HasLeft(p.ss[k + 1].conns[i])
    ensures Clean(p.ss[k].conns[i]) && !HasLeft(p.ss[k].conns[i])
    ensures p.ss[k].conns[i].aid == p.ss[k + 1].conns[i].aid
  {
    assert Can(w, p.ss[k], p.steps[k]) && p.ss[k + 1] == Do(w, p.ss[k], p.steps[k]);
    RunKeeps(w, p.ss, p.steps, k);
    StaysMarked(w, p.ss[k], p.steps[k], i);
  }

  /** The emulator thread does nothing during the handshake, and once accepted, always accepted. */
  lemma {:induction false} EmuStays(w: World, p: Part, fd: int, k: nat)
    requires Registers(w, p, fd) && p.a <= k <= p.b
    requires p.ss[p.a].conns[p.fds[fd]].fd == fd >= 0
    ensures p.ss[k].emu == p.ss[p.a].emu && p.ss[k].selected == p.ss[p.a].selected
    ensures p.ss[k].conns[p.fds[fd]].fd == fd || p.ss[k].conns[p.fds[fd]].shut
  {
    if p.a < k {
      var j := k - 1;
      EmuStays(w, p, fd, j);
      assert p.ss[j + 1] == Do(w, p.ss[j], p.steps[j]);
      RunKeeps(w, p.ss, p.steps, j);
      StaysMarked(w, p.ss[j], p.steps[j], p.fds[fd]);
      if p.steps[j].Communication? {
        CommUntouched(p.ss[j], Advance);
      }
    }
  }

  /** A library client stands from beginning to end, and nobody awaits a response from it. */
  ghost predicate Connects(w: World, p: Part, fd: int) {
    && Registers(w, p, fd) && p.ss[p.b].comm.Selecting?
    && Clean(p.ss[p.b].conns[p.fds[fd]]) && !HasLeft(p.ss[p.b].conns[p.fds[fd]])
  }

  lemma NobodyWaits(w: World, p: Part, fd: int, k: nat)
    requires Connects(w, p, fd) && p.a <= k <= p.b
    ensures !Targets(p.ss[k].emu, p.ss[k].selected, fd)
    ensures p.ss[k].conns[p.fds[fd]].fd == fd || p.ss[k].conns[p.fds[fd]].shut
  {
    RunKeeps(w, p.ss, p.steps, p.a);
    StoodBefore(w, p, fd, p.a);
    HandshakePhases(w, p.ss[p.a], fd, p.fds[fd]);
    EmuStays(w, p, fd, k);
  }

  lemma ScriptStep(w: World, p: Part, fd: int, k: nat)
    requires Connects(w, p, fd) && p.a <= k < p.b
    ensures ScriptAt(p, p.fds[fd], k)
  {
    assert p.ss[k + 1] == Do(w, p.ss[k], p.steps[k]);
    StoodBefore(w, p, fd, k + 1);
    NoCommandYet(w, p, fd, k);
    OneScript(w, p.ss[k], p.steps[k], p.fds[fd]);
  }

  lemma NoCommandYet(w: World, p: Part, fd: int, k: nat)
    requires Connects(w, p, fd) && p.a <= k < p.b
    ensures !p.ss[k].conns[p.fds[fd]].phase.Busy? && !p.ss[k].conns[p.fds[fd]].phase.Rogue?
  {
    StoodBefore(w, p, fd, k);
    NobodyWaits(w, p, fd, k);
    var mid := HandshakeGoes(w, p, fd, k);
    InHand(p, fd, mid, k);
    RunKeeps(w, p.ss, p.steps, k);
    HandshakePhases(w, p.ss[k], fd, p.fds[fd]);
  }

  lemma SameScript(c: Conn, d: Conn)
    requires d.phase == c.phase && d.aid == c.aid
    ensures Script(d) == Script(c)
  {
  }

  lemma OneScript(w: World, s: State, step: Step, i: nat)
    requires Can(w, s, step) && i < |s.conns| && i < |Do(w, s, step).conns|
    requires step.Client? || step.Join? || step == Communication(Advance)
    requires !s.conns[i].phase.Busy? && !s.conns[i].phase.Rogue? && !HasLeft(Do(w, s, step).conns[i])
    ensures var c, d := s.conns[i], Do(w, s, step).conns[i];
      Script(d) == Script(c) + if step.Client? && step.conn == i then Said(c, d) else []
  {
    if step.Client? && step.conn == i {
      ScriptGrows(w.apps(i), s.conns[i], step.cact);
    } else {
      PhaseStays(w, s, step, i);
      SameScript(s.conns[i], Do(w, s, step).conns[i]);
    }
  }

  lemma PhaseStays(w: World, s: State, step: Step, i: nat)
    requires Can(w, s, step) && i < |s.conns| && (step.Client? ==> step.conn != i)
    requires step.Client? || step.Join? || step == Communication(Advance)
    ensures var t := Do(w, s, step);
      i < |t.conns| && t.conns[i].phase == s.conns[i].phase && t.conns[i].aid == s.conns[i].aid
  {
    if step.Communication? {
      CommGreets(s, Advance, i);
    }
  }

  /** A step of the handshake adds to the script what the client says in it. */
  ghost predicate ScriptAt(p: Part, i: nat, k: nat)
    requires There(p.ss, p.steps, p.a, i) && p.a <= k < p.b <= |p.steps|
  {
    Script(p.ss[k + 1].conns[i]) == Script(p.ss[k].conns[i]) + SaidIn(p.ss, p.steps, k, i)
  }

  /** What is said step by step is what is said later. */
  lemma {:induction false} SaidUp(p: Part, i: nat, k: nat, scripts: seq<seq<Msg>>)
    requires There(p.ss, p.steps, p.a, i) && p.a <= k <= p.b <= |p.steps| && |scripts| == |p.ss|
    requires forall j | p.a <= j < p.b :: scripts[j + 1] == scripts[j] + SaidIn(p.ss, p.steps, j, i)
    ensures scripts[p.b] == scripts[k] + SaidLater(p.ss, p.steps, k, p.b, i)
    decreases p.b - k
  {
    if k < p.b {
      SaidUp(p, i, k + 1, scripts);
      Chained(scripts[p.b], scripts[k + 1], scripts[k], SaidIn(p.ss, p.steps, k, i),
              SaidLater(p.ss, p.steps, k + 1, p.b, i));
    }
  }

  /** Seen from the end of the handshake, all a client there has written is its script. */
  lemma ScriptLater(p: Part, i: nat)
    requires There(p.ss, p.steps, p.a, i) && p.a <= p.b <= |p.steps|
    requires forall j | p.a <= j < p.b :: ScriptAt(p, i, j)
    ensures Script(p.ss[p.b].conns[i]) == Script(p.ss[p.a].conns[i]) + SaidLater(p.ss, p.steps, p.a, p.b, i)
  {
    var scripts := seq(|p.ss|,
      (j: nat) requires j < |p.ss| => if i < |p.ss[j].conns| then Script(p.ss[j].conns[i]) else []);
    forall j | p.a <= j < p.b
      ensures scripts[j + 1] == scripts[j] + SaidIn(p.ss, p.steps, j, i)
    {
      assert ScriptAt(p, i, j);
    }
    SaidUp(p, i, p.a, scripts);
  }

  lemma Chained<T>(a: seq<T>, b: seq<T>, c: seq<T>, s: seq<T>, l: seq<T>)
    requires a == b + l && b == c + s
    ensures a == c + (s + l)
  {
  }

  lemma ScriptWire(c: Conn)
    requires (c.phase.AskedAid? || c.phase.Ready?) && |c.aid| < MAX_FRAME
    ensures Wire(Script(c)) == A.ClientHandshake(c.aid)
  {
    var get: Msg := [GET_API_VERSION];
    var reg: Msg := [REGISTER_AID] + c.aid;
    assert Script(c) == [get, reg] && [get, reg][1..] == [reg] && [reg][1..] == [];
    assert Wire([reg]) == Frame(reg) + Wire([]) == Frame(reg);
    assert Wire([get, reg]) == Frame(get) + Wire([reg]);
  }

  /** All a clean library client writes, if it does not leave, is the handshake of
      `edna_lib_connect`. */
  lemma LibraryStream(w: World, p: Part, fd: int)
    requires Connects(w, p, fd)
    ensures var aid := p.ss[p.b].conns[p.fds[fd]].aid; |aid| < MAX_FRAME && InAt(p, p.a, fd) == A.ClientHandshake(aid)
  {
    var i := p.fds[fd];
    RunKeeps(w, p.ss, p.steps, p.a);
    RunKeeps(w, p.ss, p.steps, p.b);
    StoodBefore(w, p, fd, p.a);
    NobodyWaits(w, p, fd, p.b);
    HandshakePhases(w, p.ss[p.a], fd, i);
    FinalPhase(w, p.ss[p.b], i);
    forall k | p.a <= k < p.b
      ensures ScriptAt(p, i, k)
    {
      ScriptStep(w, p, fd, k);
    }
    ScriptLater(p, i);
    ScriptWire(p.ss[p.b].conns[i]);
  }

  /** The handshake of a clean library client that does not leave, with its own steps in between:
      it is registered if and only if its AID is neither empty nor taken, and the daemon writes the
      whole greeting. */
  lemma LibraryHandshake(w: World, p: Part, fd: int)
    requires Connects(w, p, fd)
    ensures var (d0, d, aid) := (DaemonAt(p, p.a), DaemonAt(p, p.b), p.ss[p.b].conns[p.fds[fd]].aid);
      && |aid| < MAX_FRAME && d0.streams.rx[fd] == A.ClientHandshake(aid)
      && d.streams.tx[fd] == d0.streams.tx[fd] + D.Greeting(d0.registry, A.ClientHandshake(aid))
      && (fd in d.open <==> aid != [] && aid !in d0.registry)
      && d.registry == if aid != [] && aid !in d0.registry then d0.registry[aid := fd] else d0.registry
  {
    var aid := p.ss[p.b].conns[p.fds[fd]].aid;
    LibraryStream(w, p, fd);
    HandshakeOnTheWire(w, p, fd);
    A.OfferOfHandshake(aid, []);
    assert A.ClientHandshake(aid) + [] == A.ClientHandshake(aid);
  }
}

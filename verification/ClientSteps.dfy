/** Steps of the clients keep the invariant. */
module ClientSteps {
  import opened Bytes
  import opened Protocol
  import opened System
  import opened Invariant

  lemma AnswersFrame(w: World, s: State, t: State)
    requires Answers(w, s)
    requires t.answers == s.answers && |t.conns| >= |s.conns|
    requires forall k | 0 <= k < |s.conns| ::
      Clean(t.conns[k]) ==> Clean(s.conns[k]) && (HasLeft(s.conns[k]) ==> HasLeft(t.conns[k]))
    ensures Answers(w, t)
  {
    forall k | 0 <= k < |t.answers|
      ensures Answered(w, t, t.answers[k])
    {
      assert Answered(w, s, s.answers[k]);
    }
  }

  // ----- Clients -----------------------------------------------------------------------------

  lemma JoinDescriptors(w: World, s: State, lib: bool, aid: seq<byte>)
    requires Descriptors(s)
    ensures Descriptors(Do(w, s, Join(lib, aid)))
  {
    assert forall k | 0 <= k < |s.backlog| :: s.backlog[k] in s.backlog;
  }

  lemma JoinConnections(w: World, s: State, lib: bool, aid: seq<byte>)
    requires Connections(w, s)
    ensures Connections(w, Do(w, s, Join(lib, aid)))
  {
  }

  lemma JoinKeeps(w: World, s: State, lib: bool, aid: seq<byte>)
    requires Inv(w, s)
    ensures Inv(w, Do(w, s, Join(lib, aid)))
  {
    var t := Do(w, s, Join(lib, aid));
    AnswersFrame(w, s, t);
    JoinDescriptors(w, s, lib, aid);
    JoinConnections(w, s, lib, aid);
    assert Exchange(t);
  }

  // What a step of its client does to each state a trusted connection can be in.

  lemma WaitingMoves(app: seq<Input> -> Rapdu, c: Conn, act: ClientAct)
    requires Waiting(c) && !c.shut && ClientCan(c, act)
    ensures Waiting(ClientDo(app, c, act))
  {
  }

  lemma RegisteringMoves(app: seq<Input> -> Rapdu, c: Conn, act: ClientAct)
    requires Registering(c) && !c.shut && ClientCan(c, act)
    ensures Registering(ClientDo(app, c, act))
  {
  }

  lemma OwedMoves(app: seq<Input> -> Rapdu, c: Conn, phase: Phase, act: ClientAct)
    requires Owed(c, phase) && (phase.AskedVersion? || phase.AskedAid?) && !c.shut && ClientCan(c, act)
    ensures Owed(ClientDo(app, c, act), phase)
  {
  }

  lemma QuietMoves(app: seq<Input> -> Rapdu, c: Conn, act: ClientAct)
    requires Quiet(c) && !c.shut && ClientCan(c, act)
    ensures Quiet(ClientDo(app, c, act))
    ensures Gone(c) ==> Gone(ClientDo(app, c, act))
    ensures ClientDo(app, c, act).hist == c.hist
  {
  }

  lemma PowerMoves(app: seq<Input> -> Rapdu, c: Conn, kind: byte, act: ClientAct)
    requires IsPower(kind) && Outstanding(c, [kind], c.hist, [EDNA_OK]) && !c.shut && ClientCan(c, act)
    ensures Outstanding(ClientDo(app, c, act), [kind], ClientDo(app, c, act).hist, [EDNA_OK])
    ensures Gone(c) ==> Gone(ClientDo(app, c, act))
  {
  }

  lemma ApduMoves(app: seq<Input> -> Rapdu, c: Conn, apdu: Capdu, before: seq<Input>, act: ClientAct)
    requires !c.shut && ClientCan(c, act)
    requires Outstanding(c, [TRANSCEIVE_APDU] + apdu, before, [EDNA_OK] + app(before + [Received(apdu)]))
    ensures Outstanding(ClientDo(app, c, act), [TRANSCEIVE_APDU] + apdu, before,
                        [EDNA_OK] + app(before + [Received(apdu)]))
    ensures Gone(c) ==> Gone(ClientDo(app, c, act))
  {
    assert ([TRANSCEIVE_APDU] + apdu)[1..] == apdu;
  }

  lemma ShutMoves(app: seq<Input> -> Rapdu, c: Conn, act: ClientAct)
    requires ShutOk(c) && c.shut && ClientCan(c, act)
    ensures ShutOk(ClientDo(app, c, act))
  {
  }

  lemma ClientFrame(app: seq<Input> -> Rapdu, c: Conn, act: ClientAct)
    requires ClientCan(c, act)
    ensures var d := ClientDo(app, c, act);
      && d.fd == c.fd && d.shut == c.shut && d.lib == c.lib && d.aid == c.aid
      && d.standing == c.standing && d.refused == c.refused
      && (HasLeft(c) ==> HasLeft(d) && d.hist == c.hist)
  {
  }

  lemma RegisteredMoves(w: World, registry: map<seq<byte>, int>, selected: int, comm: Comm, emu: Emu,
                        i: nat, c: Conn, act: ClientAct)
    requires RegisteredOk(w, registry, selected, comm, emu, i, c) && !c.shut && ClientCan(c, act)
    ensures RegisteredOk(w, registry, selected, comm, emu, i, ClientDo(w.apps(i), c, act))
  {
    ClientFrame(w.apps(i), c, act);
    if !Targets(emu, selected, c.fd) {
      QuietMoves(w.apps(i), c, act);
    } else if emu.PowerSent? {
      PowerMoves(w.apps(i), c, emu.kind, act);
    } else {
      ApduMoves(w.apps(i), c, emu.apdu, emu.before, act);
    }
  }

  lemma HandshakeMoves(app: seq<Input> -> Rapdu, comm: Comm, c: Conn, act: ClientAct)
    requires HandshakeOk(comm, c) && !c.shut && ClientCan(c, act)
    ensures HandshakeOk(comm, ClientDo(app, c, act))
  {
    ClientFrame(app, c, act);
    match comm {
      case AwaitVersion(_) => WaitingMoves(app, c, act);
      case AwaitAid(_) => RegisteringMoves(app, c, act);
      case SendVersion(_) => OwedMoves(app, c, AskedVersion, act);
      case _ => OwedMoves(app, c, AskedAid, act);
    }
  }

  /** Moves within the handshake, or before it, or after the end. */
  lemma UnregisteredMoves(w: World, registry: map<seq<byte>, int>, selected: int, comm: Comm, emu: Emu,
                          i: nat, c: Conn, d: Conn, act: ClientAct)
    requires ConnOk(w, registry, selected, comm, emu, i, c) && ClientCan(c, act) && d == ClientDo(w.apps(i), c, act)
    requires c.shut || c.fd == -1 || (c.fd in HandFd(comm) && !comm.Insert?)
    ensures ConnOk(w, registry, selected, comm, emu, i, d)
  {
    ClientFrame(w.apps(i), c, act);
    if c.shut {
      ShutMoves(w.apps(i), c, act);
    } else if c.fd == -1 {
      WaitingMoves(w.apps(i), c, act);
    } else {
      HandshakeMoves(w.apps(i), comm, c, act);
    }
  }

  /** One client moves: its connection keeps a state the daemon expects. */
  lemma ClientConnOk(w: World, registry: map<seq<byte>, int>, selected: int, comm: Comm, emu: Emu,
                     i: nat, c: Conn, act: ClientAct)
    requires ConnOk(w, registry, selected, comm, emu, i, c) && ClientCan(c, act)
    ensures ConnOk(w, registry, selected, comm, emu, i, ClientDo(w.apps(i), c, act))
  {
    var d := ClientDo(w.apps(i), c, act);
    if c.shut || c.fd == -1 || (c.fd in HandFd(comm) && !comm.Insert?) {
      UnregisteredMoves(w, registry, selected, comm, emu, i, c, d, act);
    } else {
      ClientFrame(w.apps(i), c, act);
      RegisteredMoves(w, registry, selected, comm, emu, i, c, act);
    }
  }

  // ----- Frames ------------------------------------------------------------------------------

  /** Connection `i` alone changes, and only in what it carries. */
  ghost predicate Touches(s: State, t: State, i: nat) {
    && i < |s.conns| == |t.conns|
    && t.open == s.open && t.backlog == s.backlog && t.registry == s.registry
    && t.stray == s.stray && t.reused == s.reused
    && (forall k | 0 <= k < |s.conns| && k != i :: t.conns[k] == s.conns[k])
    && t.conns[i].fd == s.conns[i].fd && t.conns[i].shut == s.conns[i].shut
    && t.conns[i].lib == s.conns[i].lib && t.conns[i].standing == s.conns[i].standing
    && (HasLeft(s.conns[i]) ==> HasLeft(t.conns[i]))
  }

  lemma ShapeFrame(w: World, s: State, t: State, i: nat)
    requires Touches(s, t, i) && Descriptors(s) && Answers(w, s)
    ensures Descriptors(t)
    ensures t.answers == s.answers ==> Answers(w, t)
  {
    if t.answers == s.answers {
      AnswersFrame(w, s, t);
    }
  }

  lemma TouchConnections(w: World, s: State, t: State, i: nat)
    requires Connections(w, s) && Touches(s, t, i)
    requires t.selected == s.selected && t.comm == s.comm && t.emu == s.emu
    requires Clean(t.conns[i]) ==>
      ConnOk(w, t.registry, Seen(t.selected, t.conns[i]), t.comm, t.emu, i, t.conns[i])
    ensures Connections(w, t)
  {
  }

  lemma TouchExchange(s: State, t: State, i: nat)
    requires Descriptors(s) && Exchange(s) && Touches(s, t, i)
    requires t.selected == s.selected && t.emu == s.emu
    requires Clean(t.conns[i]) && t.conns[i].fd == t.selected && (t.emu.Wanted? || t.emu.Locked?) ==>
      t.conns[i].hist == s.conns[i].hist
    requires HasLeft(s.conns[i]) ==> t.conns[i].hist == s.conns[i].hist
    ensures Exchange(t)
  {
  }

  /** Nothing but connection `i` changes, to a state the daemon expects. */
  lemma TouchKeeps(w: World, s: State, t: State, i: nat)
    requires Inv(w, s) && Touches(s, t, i)
    requires t.selected == s.selected && t.comm == s.comm && t.emu == s.emu && t.answers == s.answers
    requires Clean(t.conns[i]) ==>
      ConnOk(w, t.registry, Seen(t.selected, t.conns[i]), t.comm, t.emu, i, t.conns[i])
    requires Clean(t.conns[i]) && t.conns[i].fd == t.selected && (t.emu.Wanted? || t.emu.Locked?) ==>
      t.conns[i].hist == s.conns[i].hist
    requires HasLeft(s.conns[i]) ==> t.conns[i].hist == s.conns[i].hist
    ensures Inv(w, t)
  {
    ShapeFrame(w, s, t, i);
    TouchConnections(w, s, t, i);
    TouchExchange(s, t, i);
  }

  /** A client processes nothing while the emulator thread waits for nobody. */
  lemma IdleMoves(w: World, registry: map<seq<byte>, int>, selected: int, comm: Comm, emu: Emu,
                  i: nat, c: Conn, act: ClientAct)
    requires ConnOk(w, registry, selected, comm, emu, i, c) && ClientCan(c, act)
    requires !emu.Sent? && !emu.PowerSent?
    ensures ClientDo(w.apps(i), c, act).hist == c.hist
  {
    assert !c.phase.Busy?;
  }

  lemma CleanMoves(w: World, s: State, i: nat, c: Conn, act: ClientAct)
    requires Connections(w, s) && i < |s.conns| && c == s.conns[i] && ClientCan(c, act) && Clean(c)
    ensures ConnOk(w, s.registry, Seen(s.selected, c), s.comm, s.emu, i, ClientDo(w.apps(i), c, act))
    ensures s.emu.Wanted? || s.emu.Locked? ==> ClientDo(w.apps(i), c, act).hist == c.hist
  {
    ClientConnOk(w, s.registry, Seen(s.selected, c), s.comm, s.emu, i, c, act);
    if s.emu.Wanted? || s.emu.Locked? {
      IdleMoves(w, s.registry, Seen(s.selected, c), s.comm, s.emu, i, c, act);
    }
  }

  lemma ClientKeeps(w: World, s: State, i: nat, act: ClientAct)
    requires Inv(w, s) && i < |s.conns| && ClientCan(s.conns[i], act)
    ensures Inv(w, SetConn(s, i, ClientDo(w.apps(i), s.conns[i], act)))
  {
    var c := s.conns[i];
    ClientFrame(w.apps(i), c, act);
    if Clean(c) {
      CleanMoves(w, s, i, c, act);
    }
    TouchKeeps(w, s, SetConn(s, i, ClientDo(w.apps(i), c, act)), i);
  }
}

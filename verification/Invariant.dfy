/** What every reachable state of the system satisfies, and the proof that every step keeps it. */
module Invariant {
  import opened Bytes
  import opened Protocol
  import opened System

  // ----- Descriptors and registry ------------------------------------------------------------

  /** The descriptor of the client `new_client` is working on, if any. */
  function HandFd(comm: Comm): set<int> {
    match comm
    case AwaitVersion(fd) => {fd}
    case SendVersion(fd) => {fd}
    case AwaitAid(fd) => {fd}
    case Lookup(fd, _) => {fd}
    case Refuse(fd) => {fd}
    case Acknowledge(fd, _) => {fd}
    case Insert(fd, _) => {fd}
    case _ => {}
  }

  ghost predicate Descriptors(s: State) {
    && (forall fd | fd in s.open :: fd >= 0 && s.open[fd] < |s.conns| && s.conns[s.open[fd]].fd == fd)
    && (forall i | 0 <= i < |s.conns| ::
          && s.conns[i].fd >= -1
          && (s.conns[i].fd >= 0 ==> s.conns[i].fd in s.open && s.open[s.conns[i].fd] == i && !s.conns[i].shut)
          && (s.conns[i].fd == -1 && !s.conns[i].shut ==> i in s.backlog))
    && (forall i | i in s.backlog :: i < |s.conns| && s.conns[i].fd == -1 && !s.conns[i].shut)
    && (forall j, k | 0 <= j < k < |s.backlog| :: s.backlog[j] != s.backlog[k])
  }

  ghost predicate Registry(s: State) {
    && s.open.Keys == s.registry.Values + HandFd(s.comm)
    && s.registry.Values !! HandFd(s.comm)
    && Injective(s.registry)
    && [] !in s.registry
    && s.stray == 0
    && (s.comm.Lookup? || s.comm.Acknowledge? || s.comm.Insert? ==> s.comm.aid != [])
    && (s.comm.Acknowledge? || s.comm.Insert? ==> s.comm.aid !in s.registry)
  }

  predicate IsPower(kind: byte) { kind == POWER_UP || kind == POWER_DOWN }

  ghost predicate Selected(s: State) {
    && s.selected >= NO_APP_SELECTED
    && (s.emu.Wanted? || s.emu.Locked? || s.emu.Sent? || s.emu.Failed? ==> s.selected != NO_APP_SELECTED)
    && (s.emu.PowerWanted? || s.emu.Power? || s.emu.PowerSent? ==>
          s.selected == NO_APP_SELECTED && IsPower(s.emu.kind))
    && (!s.reused && s.selected in s.open ==> s.selected in s.registry.Values)
    && Suspects(s)
  }

  /** A suspect connection is the one on the selected number, and no response is awaited from it. */
  ghost predicate Suspects(s: State) {
    forall i | 0 <= i < |s.conns| && s.conns[i].standing.Suspect? ::
      s.conns[i].fd >= 0 && s.conns[i].fd == s.selected && !s.emu.Sent?
  }

  // ----- What is in flight on one connection -------------------------------------------------

  /** Connected, not yet read by the daemon. */
  predicate Waiting(c: Conn) {
    && c.down == [] && !c.refused
    && match c.phase
       case Fresh => c.up == []
       case AskedVersion => c.up == [[GET_API_VERSION]]
       case Closed(why) => why == Left && (c.up == [] || c.up == [[GET_API_VERSION]])
       case _ => false
  }

  predicate Registering(c: Conn) {
    && !c.refused
    && match c.phase
       case AskedVersion => c.up == [] && c.down == [[API_VERSION]]
       case Versioned => c.up == [] && c.down == []
       case AskedAid => c.up == [[REGISTER_AID] + c.aid] && c.down == []
       case Closed(why) =>
         && (c.up == [] || c.up == [[REGISTER_AID] + c.aid])
         && (why == Left || (why == Disconnected && |c.aid| >= MAX_FRAME))
       case _ => false
  }

  /** The daemon has the registration request, or has answered the version request, and owes
      the next frame. */
  predicate Owed(c: Conn, phase: Phase) {
    c.up == [] && ((c.phase == phase && c.down == []) || c.phase == Closed(Left))
  }

  /** Gone after registration: nothing but a DISCONNECT can be left to read. */
  predicate Gone(c: Conn) {
    (c.phase.Leaving? || c.phase == Closed(Left)) && (c.up == [] || c.up == [[DISCONNECT]])
  }

  /** Registered and in step with the daemon: no command unanswered, no response unread. */
  predicate Quiet(c: Conn) {
    || (c.phase.AskedAid? && c.up == [] && c.down == [[EDNA_OK]])
    || (c.phase.Ready? && c.up == [] && c.down == [])
    || Gone(c)
  }

  /** Exactly one command is outstanding: still to be read, being processed, or answered. */
  predicate Outstanding(c: Conn, cmd: Msg, before: seq<Input>, reply: Msg) {
    || (c.phase.AskedAid? && c.up == [] && c.down == [[EDNA_OK], cmd] && c.hist == before)
    || (c.phase.Ready? && c.up == [] && c.down == [cmd] && c.hist == before)
    || (c.phase == Busy(cmd) && c.up == [] && c.down == [] && c.hist == before)
    || (c.phase.Ready? && c.up == [reply] && c.down == [])
    || Gone(c)
    || ((c.phase.Leaving? || c.phase == Closed(Left)) && (c.up == [reply] || c.up == [reply, [DISCONNECT]]))
  }

  /** The emulator thread is waiting for a response on `fd`. */
  predicate Targets(emu: Emu, selected: int, fd: int) {
    (emu.PowerSent? && emu.fd == fd) || (emu.Sent? && selected == fd)
  }

  /** Connection `i` has been sent the command the emulator thread waits on. */
  predicate InFlight(w: World, emu: Emu, i: int, c: Conn) {
    match emu
    case PowerSent(kind, _, _) => IsPower(kind) && Outstanding(c, [kind], c.hist, [EDNA_OK])
    case Sent(apdu, _, conn, before) =>
      && conn == i
      && Outstanding(c, [TRANSCEIVE_APDU] + apdu, before, [EDNA_OK] + w.apps(conn)(before + [Received(apdu)]))
    case _ => false
  }

  predicate SoundAid(aid: seq<byte>) { 0 < |aid| < MAX_FRAME }

  /** What holds of an accepted connection the daemon is registering. */
  predicate HandshakeOk(comm: Comm, c: Conn) {
    match comm
    case AwaitVersion(_) => Waiting(c)
    case SendVersion(_) => !c.refused && Owed(c, AskedVersion)
    case AwaitAid(_) => Registering(c)
    case Lookup(_, aid) => !c.refused && aid == c.aid && SoundAid(aid) && Owed(c, AskedAid)
    case Acknowledge(_, aid) => !c.refused && aid == c.aid && SoundAid(aid) && Owed(c, AskedAid)
    case Refuse(_) => c.refused && SoundAid(c.aid) && Owed(c, AskedAid)
    case _ => false
  }

  /** The registry entry of connection `c` exists or is about to. */
  predicate Bound(registry: map<seq<byte>, int>, comm: Comm, c: Conn) {
    || (c.aid in registry && registry[c.aid] == c.fd)
    || comm == Insert(c.fd, c.aid)
  }

  /** What holds of a registered connection. */
  predicate RegisteredOk(w: World, registry: map<seq<byte>, int>, selected: int, comm: Comm, emu: Emu,
                         i: int, c: Conn) {
    && !c.refused && SoundAid(c.aid) && Bound(registry, comm, c)
    && (if Targets(emu, selected, c.fd) then InFlight(w, emu, i, c) else Quiet(c))
    && (comm.Serving? && c.fd in comm.ready ==> Gone(c))
    && (comm.Dropping? && c.fd == comm.fd ==> Gone(c))
    && (emu.Failed? && c.fd == selected ==> HasLeft(c))
  }

  /** What holds of a connection the daemon has closed: its client had left, or was refused. */
  predicate ShutOk(c: Conn) {
    match c.phase
    case Leaving => true
    case Closed(Left) => true
    case Closed(Disconnected) => !SoundAid(c.aid) && !c.refused
    case Closed(AlreadyRegistered) => c.refused && SoundAid(c.aid)
    case AskedAid =>
      || (c.up == [] && c.down == [] && c.aid == [] && !c.refused)
      || (c.up == [] && c.down == [[AID_EXISTS]] && c.refused && SoundAid(c.aid))
    case _ => false
  }

  /** What holds of a clean connection, by the daemon's business with it. */
  predicate ConnOk(w: World, registry: map<seq<byte>, int>, selected: int, comm: Comm, emu: Emu, i: int, c: Conn) {
    if c.shut then ShutOk(c)
    else if c.fd == -1 then Waiting(c)
    else if c.fd in HandFd(comm) && !comm.Insert? then
      selected != c.fd && !Targets(emu, selected, c.fd) && HandshakeOk(comm, c)
    else
      RegisteredOk(w, registry, selected, comm, emu, i, c) && (comm.Insert? && c.fd == comm.fd ==> selected != c.fd)
  }

  /** The selection, as far as it was made for this connection. */
  function Seen(selected: int, c: Conn): int {
    if c.standing.Suspect? then NO_APP_SELECTED else selected
  }

  ghost predicate Connections(w: World, s: State) {
    forall i | 0 <= i < |s.conns| && Clean(s.conns[i]) ::
      ConnOk(w, s.registry, Seen(s.selected, s.conns[i]), s.comm, s.emu, i, s.conns[i])
  }

  /** The emulator thread cannot wait on a number that is about to be handed out. */
  predicate NoSwap(s: State) {
    s.comm.Accepting? ==>
      && (s.emu.Sent? ==> s.selected in s.open)
      && (s.emu.PowerSent? ==> s.emu.fd in s.open)
  }

  // ----- The exchange in progress and those completed ----------------------------------------

  predicate CardOk(n: nat, apdu: Capdu, card: Card) {
    && !ParseSelect(apdu).Malformed?
    && |card.hist| <= n
    && match SelectOn(card, apdu).sel
       case Nobody => false
       case App(i) => i < |card.hist|
       case Stale => true
  }

  predicate Exchange(s: State) {
    match s.emu
    case Wanted(apdu, card) => CardOk(|s.conns|, apdu, card) && Pending(s, SelectOn(card, apdu).sel, card.hist)
    case Locked(apdu, card) => CardOk(|s.conns|, apdu, card) && Pending(s, SelectOn(card, apdu).sel, card.hist)
    case Sent(apdu, card, conn, before) =>
      && CardOk(|s.conns|, apdu, card)
      && (s.selected in s.open ==> s.open[s.selected] == conn)
      && Waited(s, SelectOn(card, apdu).sel, card.hist, conn, before)
    case Failed(apdu, card) =>
      && CardOk(|s.conns|, apdu, card)
      && (SelectOn(card, apdu).sel.App? ==>
            var c := s.conns[SelectOn(card, apdu).sel.conn];
            Clean(c) ==> HasLeft(c))
    case _ => true
  }

  /** The request has been routed and nothing has been sent yet: the selected application is
      still as it was when the request came. */
  predicate Pending(s: State, sel: Selection, hist: seq<seq<Input>>) {
    match sel
    case App(i) =>
      && i < |hist| <= |s.conns|
      && (!s.reused && s.selected in s.open ==> s.open[s.selected] == i)
      && (Clean(s.conns[i]) ==>
            && s.conns[i].hist == hist[i]
            && (s.conns[i].fd == s.selected || (s.conns[i].shut && HasLeft(s.conns[i]))))
    case _ => !s.reused ==> s.selected !in s.open
  }

  /** A response is awaited from the selected application, unless it has left. */
  predicate Waited(s: State, sel: Selection, hist: seq<seq<Input>>, conn: nat, before: seq<Input>) {
    match sel
    case App(i) =>
      && i < |hist| <= |s.conns|
      && (Clean(s.conns[i]) ==>
            || (HasLeft(s.conns[i]) && s.reused)
            || (conn == i && before == hist[i] && (HasLeft(s.conns[i]) || s.conns[i].fd == s.selected)))
    case _ => s.reused
  }

  /** A completed call returned what the card answers, or the selected client has left. */
  predicate Answered(w: World, s: State, a: Answer) {
    var expected := Respond(w.apps, a.card, a.apdu);
    if ParseSelect(a.apdu).Malformed? then a.result == expected
    else
      match SelectOn(a.card, a.apdu).sel
      case Nobody => a.result == expected
      case Stale => a.result == None || a.reused
      case App(i) =>
        && i < |a.card.hist| <= |s.conns|
        && (Clean(s.conns[i]) ==>
              || a.result == expected
              || (HasLeft(s.conns[i]) && (a.result == None || a.reused)))
  }

  ghost predicate Answers(w: World, s: State) {
    forall k | 0 <= k < |s.answers| :: Answered(w, s, s.answers[k])
  }

  ghost predicate Inv(w: World, s: State) {
    && Descriptors(s)
    && Registry(s)
    && Selected(s)
    && Connections(w, s)
    && NoSwap(s)
    && Exchange(s)
    && Answers(w, s)
  }
}

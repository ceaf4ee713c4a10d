/** The whole system as a step machine: the daemon's communications thread, its emulator thread,
    the mutex between them, and any number of client processes, each on its own connection.

    A frame read, a frame write, a registry operation and a `select` call are one step each.
    Channels are FIFO and a read or write fails only because the other end is gone.  Descriptor
    numbers are chosen by the operating system, which may hand out a closed number again. */
module System {
  import opened Bytes
  import opened Protocol

  // ----- Clients -----------------------------------------------------------------------------

  /** Why a client's end of a connection is closed. */
  datatype Why = Left | Disconnected | VersionMismatch | AlreadyRegistered

  /** Where a client is inside the library: the stages of `edna_lib_connect`, then connected
      (in or out of the event loop), then processing one command, then disconnecting.
      A `Rogue` client does not use the library and sends whatever it likes. */
  datatype Phase =
    | Fresh
    | AskedVersion
    | Versioned
    | AskedAid
    | Ready
    | Busy(cmd: Msg)
    | Leaving
    | Closed(why: Why)
    | Rogue

  /** What a stale selection means to a connection.  It is `Suspect` while its descriptor is the
      number of a selection made for somebody else, from the moment it is accepted on it.  It is
      `Misled` for good when that selection has brought it a command, or has been the reason for
      closing it, or could be in a call that was going on when it was closed. */
  datatype Standing = Regular | Suspect | Misled

  /** One connection.  `up` runs to the daemon and `down` to the client.  `fd` is the daemon's
      descriptor, -1 before it is accepted and after it is closed (`shut`).  Two fields are
      history: `standing`, and whether the daemon found the requested AID taken (`refused`). */
  datatype Conn = Conn(
    lib: bool, aid: seq<byte>, phase: Phase, up: seq<Msg>, down: seq<Msg>,
    hist: seq<Input>, fd: int, shut: bool, standing: Standing, refused: bool)

  /** A library client that is not touched by a stale selection. */
  predicate Trusted(c: Conn) { c.lib && c.standing.Regular? }

  /** A library client that is not touched by one, or not yet. */
  predicate Clean(c: Conn) { c.lib && !c.standing.Misled? }

  predicate HasLeft(c: Conn) { c.phase.Leaving? || c.phase.Closed? }

  // ----- The abstract card -------------------------------------------------------------------

  /** No application selected; one whose descriptor has been closed; or a live connection. */
  datatype Selection = Nobody | Stale | App(conn: nat)

  /** The local smart card the system imitates: handlers by AID, a selection, and what each
      handler has processed. */
  datatype Card = Card(apps: map<seq<byte>, nat>, sel: Selection, hist: seq<seq<Input>>)

  function SelectOn(card: Card, apdu: seq<byte>): Card {
    match ParseSelect(apdu)
    case Select(aid) => if aid in card.apps then card.(sel := App(card.apps[aid])) else card
    case _ => card
  }

  /** What the card answers to an APDU; `None` when the selected handler no longer exists. */
  function Respond(apps: nat -> seq<Input> -> Rapdu, card: Card, apdu: seq<byte>): Option<seq<byte>> {
    if ParseSelect(apdu).Malformed? then Some(SW_NO_DIAGNOSIS)
    else
      match SelectOn(card, apdu).sel
      case Nobody => Some(SW_INS_NOT_SUPPORTED)
      case Stale => None
      case App(i) => if i < |card.hist| then Some(apps(i)(card.hist[i] + [Received(apdu)])) else None
  }

  // ----- The daemon --------------------------------------------------------------------------

  /** Program points of `threadproc` and of `new_client` below it. */
  datatype Comm =
    | Selecting
    | Accepting
    | AwaitVersion(fd: int)
    | SendVersion(fd: int)
    | AwaitAid(fd: int)
    | Lookup(fd: int, aid: seq<byte>)
    | Refuse(fd: int)
    | Acknowledge(fd: int, aid: seq<byte>)
    | Insert(fd: int, aid: seq<byte>)
    | Serving(ready: set<int>)
    | Dropping(fd: int)

  /** Program points of the emulator thread.  A power pass walks the registry in key order and
      `last` is the key it visited last.  An exchange carries the card as it was when
      `transceive` was called; `PowerSent` and `Sent` also record the connection written to and
      what its application had processed. */
  datatype Emu =
    | Idle
    | PowerWanted(kind: byte)
    | Power(kind: byte, last: Option<seq<byte>>)
    | PowerSent(kind: byte, last: Option<seq<byte>>, fd: int)
    | Wanted(apdu: Capdu, card: Card)
    | Locked(apdu: Capdu, card: Card)
    | Sent(apdu: Capdu, card: Card, conn: nat, before: seq<Input>)
    | Failed(apdu: Capdu, card: Card)

  /** One completed call of `transceive`: the APDU, the card at the call, what was returned
      (`None` when the exchange failed), and whether the selection was recycled at the end. */
  datatype Answer = Answer(apdu: Capdu, card: Card, result: Option<seq<byte>>, reused: bool)

  /** `open` maps the daemon's client descriptors to connections.  `stray` counts closes of a
      descriptor that is not open.  `reused` records that the number selected has been handed to
      a new connection since the selection was made: the selection is recycled. */
  datatype State = State(
    conns: seq<Conn>, backlog: seq<nat>, open: map<int, nat>,
    registry: map<seq<byte>, int>, selected: int, comm: Comm, emu: Emu,
    answers: seq<Answer>, stray: nat, reused: bool)

  const INITIAL: State :=
    State([], [], map[], map[], NO_APP_SELECTED, Selecting, Idle, [], 0, false)

  /** comm_mutex is held by the emulator thread.  (The other thread holds it only across one
      `select` call, which is one step.) */
  predicate Held(s: State) {
    s.emu.Power? || s.emu.PowerSent? || s.emu.Locked? || s.emu.Sent?
  }

  predicate IsOpen(s: State, fd: int) {
    fd in s.open && s.open[fd] < |s.conns|
  }

  function ConnOf(s: State, fd: int): Conn
    requires IsOpen(s, fd)
  {
    s.conns[s.open[fd]]
  }

  function SetConn(s: State, i: nat, c: Conn): State
    requires i < |s.conns|
  {
    s.(conns := s.conns[i := c])
  }

  /** A call of `transceive` is going on. */
  predicate InCall(emu: Emu) {
    emu.Wanted? || emu.Locked? || emu.Sent? || emu.Failed?
  }

  function Shut(emu: Emu, c: Conn): Conn {
    c.(fd := -1, shut := true,
       standing := if !c.standing.Suspect? then c.standing else if InCall(emu) then Misled else Regular)
  }

  function CloseFd(s: State, fd: int): State {
    if IsOpen(s, fd) then
      SetConn(s, s.open[fd], Shut(s.emu, ConnOf(s, fd))).(open := s.open - {fd})
    else
      s.(stray := s.stray + 1)
  }

  function Unregister(s: State, fd: int): State {
    if fd in s.registry.Values then CloseFd(s, fd).(registry := Without(s.registry, fd)) else s
  }

  /** A read on `fd` would return: a frame, end of file, or an error on a closed descriptor. */
  predicate Readable(s: State, fd: int) {
    !IsOpen(s, fd) || ConnOf(s, fd).up != [] || ConnOf(s, fd).phase.Closed?
  }

  function Incoming(s: State, fd: int): Option<Msg> {
    if IsOpen(s, fd) && ConnOf(s, fd).up != [] then Some(ConnOf(s, fd).up[0]) else None
  }

  function Consume(s: State, fd: int): State {
    if IsOpen(s, fd) && ConnOf(s, fd).up != [] then
      SetConn(s, s.open[fd], ConnOf(s, fd).(up := ConnOf(s, fd).up[1..]))
    else
      s
  }

  predicate Writable(s: State, fd: int) {
    IsOpen(s, fd) && !ConnOf(s, fd).phase.Closed?
  }

  function Push(s: State, fd: int, m: Msg): State {
    if Writable(s, fd) then
      SetConn(s, s.open[fd], ConnOf(s, fd).(down := ConnOf(s, fd).down + [m]))
    else
      s
  }

  /** The connection behind the selection, if it is suspect, gets another standing: it is misled
      by what the selection brings it, or regular again when the selection goes. */
  function Judge(s: State, standing: Standing): State {
    if IsOpen(s, s.selected) && ConnOf(s, s.selected).standing.Suspect? then
      SetConn(s, s.open[s.selected], ConnOf(s, s.selected).(standing := standing))
    else
      s
  }

  // ----- Abstraction -------------------------------------------------------------------------

  function Abs(s: State): Card {
    Card(
      map aid | aid in s.registry && s.registry[aid] in s.open :: s.open[s.registry[aid]],
      if s.selected == NO_APP_SELECTED then Nobody
      else if s.selected in s.open then App(s.open[s.selected])
      else Stale,
      seq(|s.conns|, (i: nat) requires i < |s.conns| => s.conns[i].hist))
  }

  // ----- Steps of a client -------------------------------------------------------------------

  datatype ClientAct =
    | Write        // the library sends its next frame
    | Take         // the library receives a frame, or sees the end of the stream
    | Quit         // edna_lib_disconnect up to its last frame
    | Crash        // the connection's client end is closed
    | Babble(m: Msg)
    | Discard

  predicate ClientCan(c: Conn, act: ClientAct) {
    match act
    case Write => c.phase.Fresh? || c.phase.Versioned? || c.phase.Busy?
    case Take => (c.phase.AskedVersion? || c.phase.AskedAid? || c.phase.Ready?) && (c.down != [] || c.shut)
    case Quit => c.phase.Ready?
    case Crash => !c.phase.Closed?
    case Babble(_) => c.phase.Rogue? && !c.shut
    case Discard => c.phase.Rogue? && c.down != []
  }

  /** `send_to_daemon`, then the next phase; a failed send closes the connection. */
  function ClientSend(c: Conn, m: seq<byte>, next: Phase): Conn {
    if c.shut || |m| > MAX_FRAME then c.(phase := Closed(Disconnected))
    else c.(up := c.up + [m], phase := next)
  }

  function ClientDo(app: seq<Input> -> Rapdu, c: Conn, act: ClientAct): Conn
    requires ClientCan(c, act)
  {
    match act
    case Write =>
      (match c.phase
       case Fresh => ClientSend(c, [GET_API_VERSION], AskedVersion)
       case Versioned => ClientSend(c, [REGISTER_AID] + c.aid, AskedAid)
       case Busy(cmd) =>
         ClientSend(c, ReplyTo(app, c.hist, cmd), Ready).(hist := HistoryAfter(c.hist, cmd)))
    case Take =>
      if c.down == [] then c.(phase := Closed(Disconnected))
      else
        var m := c.down[0];
        var rest := c.(down := c.down[1..]);
        (match c.phase
         case AskedVersion => rest.(phase := if m == [API_VERSION] then Versioned else Closed(VersionMismatch))
         case AskedAid => rest.(phase := if m == [EDNA_OK] then Ready else Closed(AlreadyRegistered))
         case Ready => rest.(phase := if |m| < 1 then Closed(Disconnected) else Busy(m)))
    case Quit => if c.shut then c.(phase := Leaving) else c.(up := c.up + [[DISCONNECT]], phase := Leaving)
    case Crash => c.(phase := Closed(Left))
    case Babble(m) => c.(up := c.up + [m])
    case Discard => c.(down := c.down[1..])
  }

  // ----- Steps of the communications thread --------------------------------------------------

  datatype CommAct =
    | SelectListening              // `select` reports the listening socket
    | SelectReady(ready: set<int>) // `select` reports these connections only
    | Accept(fd: int)
    | AcceptFails
    | Handle(fd: int)              // serve one of the reported connections
    | NothingToHandle              // all reported connections are gone from the registry
    | Advance                      // next step of new_client or unregister_by_socket

  predicate CommCan(s: State, act: CommAct) {
    match act
    case SelectListening => s.comm.Selecting? && !Held(s) && s.backlog != []
    case SelectReady(ready) =>
      && s.comm.Selecting? && !Held(s) && ready != {} && ready <= s.registry.Values
      && forall fd | fd in ready :: Readable(s, fd)
    case Accept(fd) =>
      s.comm.Accepting? && s.backlog != [] && s.backlog[0] < |s.conns| && fd >= 0 && fd !in s.open
    case AcceptFails => s.comm.Accepting?
    case Handle(fd) =>
      s.comm.Serving? && fd in s.comm.ready && fd in s.registry.Values && Readable(s, fd)
    case NothingToHandle =>
      s.comm.Serving? && s.comm.ready !! s.registry.Values
    case Advance =>
      match s.comm
      case AwaitVersion(fd) => Readable(s, fd)
      case AwaitAid(fd) => Readable(s, fd)
      case SendVersion(_) => true
      case Lookup(_, _) => true
      case Refuse(_) => true
      case Acknowledge(_, _) => true
      case Insert(_, _) => true
      case Dropping(_) => true
      case _ => false
  }

  /** The oldest pending connection gets the descriptor `fd`. */
  function AcceptDo(s: State, fd: int): State
    requires s.backlog != [] && s.backlog[0] < |s.conns|
  {
    var i := s.backlog[0];
    var c := s.conns[i];
    var standing := if fd == s.selected && c.standing.Regular? then Suspect else c.standing;
    State(s.conns[i := c.(fd := fd, standing := standing)], s.backlog[1..], s.open[fd := i],
          s.registry, s.selected, AwaitVersion(fd), s.emu, s.answers, s.stray, s.reused || fd == s.selected)
  }

  /** A reported connection is dropped at its end of file or at its DISCONNECT. */
  function AfterRead(m: Option<Msg>, fd: int): Comm {
    if m.None? || (|m.value| > 0 && m.value[0] == DISCONNECT) then Dropping(fd) else Selecting
  }

  function CommDo(s: State, act: CommAct): State
    requires CommCan(s, act)
  {
    match act
    case SelectListening => s.(comm := Accepting)
    case SelectReady(ready) => s.(comm := Serving(ready))
    case Accept(fd) => AcceptDo(s, fd)
    case AcceptFails => s.(comm := Selecting)
    case Handle(fd) => Consume(s, fd).(comm := AfterRead(Incoming(s, fd), fd))
    case NothingToHandle => s.(comm := Selecting)
    case Advance => NewClientDo(s)
  }

  /** `new_client` gives up on its client. */
  function Reject(s: State, fd: int): State {
    CloseFd(s, fd).(comm := Selecting)
  }

  function AwaitVersionDo(s: State, fd: int): State {
    if Incoming(s, fd) == Some([GET_API_VERSION]) then Consume(s, fd).(comm := SendVersion(fd))
    else Reject(Consume(s, fd), fd)
  }

  function SendVersionDo(s: State, fd: int): State {
    if Writable(s, fd) then Push(s, fd, [API_VERSION]).(comm := AwaitAid(fd)) else Reject(s, fd)
  }

  function AwaitAidDo(s: State, fd: int): State {
    var m := Incoming(s, fd);
    var aid := if m.Some? then RequestedAid(m.value) else None;
    if aid.Some? then Consume(s, fd).(comm := Lookup(fd, aid.value)) else Reject(Consume(s, fd), fd)
  }

  function LookupDo(s: State, fd: int, aid: seq<byte>): State {
    if aid !in s.registry then s.(comm := Acknowledge(fd, aid))
    else if IsOpen(s, fd) then SetConn(s, s.open[fd], ConnOf(s, fd).(refused := true)).(comm := Refuse(fd))
    else s.(comm := Refuse(fd))
  }

  function AcknowledgeDo(s: State, fd: int, aid: seq<byte>): State {
    if Writable(s, fd) then Push(s, fd, [EDNA_OK]).(comm := Insert(fd, aid)) else Reject(s, fd)
  }

  function NewClientDo(s: State): State
    requires CommCan(s, Advance)
  {
    match s.comm
    case AwaitVersion(fd) => AwaitVersionDo(s, fd)
    case SendVersion(fd) => SendVersionDo(s, fd)
    case AwaitAid(fd) => AwaitAidDo(s, fd)
    case Lookup(fd, aid) => LookupDo(s, fd, aid)
    case Refuse(fd) => Reject(Push(s, fd, [AID_EXISTS]), fd)
    case Acknowledge(fd, aid) => AcknowledgeDo(s, fd, aid)
    case Insert(fd, aid) => s.(registry := s.registry[aid := fd], comm := Selecting)
    case Dropping(fd) => Unregister(s, fd).(comm := Selecting)
  }

  // ----- Steps of the emulator thread --------------------------------------------------------

  datatype EmuAct =
    | PowerEvent(kind: byte)  // powerup_on_select or powerdown_on_deselect is called
    | Ask(apdu: Capdu)        // transceive is called, up to the test of selected_application
    | Visit(aid: seq<byte>)   // the power pass reaches this registry entry
    | PassDone
    | Proceed                 // next step of the current call

  /** `aid` comes after `last` in the order of the registry. */
  predicate After(less: (seq<byte>, seq<byte>) -> bool, last: Option<seq<byte>>, aid: seq<byte>) {
    last.None? || less(last.value, aid)
  }

  predicate EmuCan(s: State, less: (seq<byte>, seq<byte>) -> bool, act: EmuAct) {
    match act
    case PowerEvent(kind) => s.emu.Idle? && (kind == POWER_UP || kind == POWER_DOWN)
    case Ask(_) => s.emu.Idle?
    case Visit(aid) =>
      && s.emu.Power? && aid in s.registry && After(less, s.emu.last, aid)
      && forall b | b in s.registry && After(less, s.emu.last, b) :: !less(b, aid)
    case PassDone =>
      s.emu.Power? && forall b | b in s.registry :: !After(less, s.emu.last, b)
    case Proceed =>
      match s.emu
      case PowerWanted(_) => true
      case PowerSent(_, _, fd) => Readable(s, fd)
      case Wanted(_, _) => true
      case Locked(_, _) => true
      case Sent(_, _, _, _) => Readable(s, s.selected)
      case Failed(_, _) => true
      case _ => false
  }

  function EmuDo(s: State, less: (seq<byte>, seq<byte>) -> bool, act: EmuAct): State
    requires EmuCan(s, less, act)
  {
    match act
    case PowerEvent(kind) =>
      Judge(s, Regular).(selected := NO_APP_SELECTED, reused := false, emu := PowerWanted(kind))
    case Ask(apdu) => AskDo(s, apdu)
    case Visit(aid) =>
      var fd := s.registry[aid];
      Push(s, fd, [s.emu.kind]).(
        emu := if Writable(s, fd) then PowerSent(s.emu.kind, Some(aid), fd)
               else Power(s.emu.kind, Some(aid)))
    case PassDone => s.(emu := Idle)
    case Proceed => ProceedDo(s, less)
  }

  /** The APDU is a SELECT of a registered AID. */
  predicate Chooses(registry: map<seq<byte>, int>, apdu: seq<byte>) {
    ParseSelect(apdu).Select? && ParseSelect(apdu).aid in registry
  }

  function AskDo(s: State, apdu: Capdu): State {
    var fd := Route(s.registry, s.selected, apdu);
    if ParseSelect(apdu).Malformed? then
      s.(answers := s.answers + [Answer(apdu, Abs(s), Some(SW_NO_DIAGNOSIS), s.reused)])
    else if fd == NO_APP_SELECTED then
      s.(answers := s.answers + [Answer(apdu, Abs(s), Some(SW_INS_NOT_SUPPORTED), s.reused)])
    else
      Selects(s, apdu, fd).(emu := Wanted(apdu, Abs(s)))
  }

  /** The selection is `fd` from now on; a matching SELECT makes it anew. */
  function Selects(s: State, apdu: seq<byte>, fd: int): State {
    if Chooses(s.registry, apdu) then Judge(s, Regular).(selected := fd, reused := false) else s.(selected := fd)
  }

  /** What `transceive` reads from `fd`: an R-APDU, or a failed exchange. */
  function ReadBy(s: State, fd: int): Option<seq<byte>> {
    var m := Incoming(s, fd);
    if m.Some? then ReadResponse(m.value) else None
  }

  function ProceedDo(s: State, less: (seq<byte>, seq<byte>) -> bool): State
    requires EmuCan(s, less, Proceed)
  {
    match s.emu
    case PowerWanted(kind) => s.(emu := Power(kind, None))
    case PowerSent(kind, last, fd) => Consume(s, fd).(emu := Power(kind, last))
    case Wanted(apdu, card) => s.(emu := Locked(apdu, card))
    case Locked(apdu, card) =>
      if Writable(s, s.selected) then
        var i := s.open[s.selected];
        Push(Judge(s, Misled), s.selected, [TRANSCEIVE_APDU] + apdu).(emu := Sent(apdu, card, i, s.conns[i].hist))
      else
        s.(emu := Failed(apdu, card))
    case Sent(apdu, card, _, _) =>
      var rdata := ReadBy(s, s.selected);
      if rdata.Some? then
        Consume(s, s.selected).(emu := Idle, answers := s.answers + [Answer(apdu, card, rdata, s.reused)])
      else
        Consume(s, s.selected).(emu := Failed(apdu, card))
    case Failed(apdu, card) =>
      Judge(Unregister(s, s.selected), Regular).(
        selected := NO_APP_SELECTED, reused := false, emu := Idle,
        answers := s.answers + [Answer(apdu, card, None, s.reused)])
  }

  // ----- Runs --------------------------------------------------------------------------------

  datatype Step =
    | Join(lib: bool, aid: seq<byte>)
    | Client(conn: nat, cact: ClientAct)
    | Communication(mact: CommAct)
    | Emulator(eact: EmuAct)

  /** What a run depends on besides its schedule: the applications behind the connections, and
      the order in which the registry is walked. */
  datatype World = World(apps: nat -> seq<Input> -> Rapdu, less: (seq<byte>, seq<byte>) -> bool)

  predicate Can(w: World, s: State, step: Step) {
    match step
    case Join(_, _) => true
    case Client(i, act) => i < |s.conns| && ClientCan(s.conns[i], act)
    case Communication(act) => CommCan(s, act)
    case Emulator(act) => EmuCan(s, w.less, act)
  }

  function Do(w: World, s: State, step: Step): State
    requires Can(w, s, step)
  {
    match step
    case Join(lib, aid) =>
      s.(conns := s.conns + [Conn(lib, aid, if lib then Fresh else Rogue, [], [], [], -1, false, Regular, false)],
         backlog := s.backlog + [|s.conns|])
    case Client(i, act) => SetConn(s, i, ClientDo(w.apps(i), s.conns[i], act))
    case Communication(act) => CommDo(s, act)
    case Emulator(act) => EmuDo(s, w.less, act)
  }

  /** `ss` is a run of the system under the schedule `steps`. */
  ghost predicate IsRun(w: World, ss: seq<State>, steps: seq<Step>) {
    && |ss| == |steps| + 1
    && ss[0] == INITIAL
    && forall k | 0 <= k < |steps| :: Can(w, ss[k], steps[k]) && ss[k + 1] == Do(w, ss[k], steps[k])
  }
}

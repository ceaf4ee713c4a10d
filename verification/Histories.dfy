/** What an application has processed is what the daemon has sent it. */
module Histories {
  import opened Bytes
  import opened Protocol
  import opened System
  import opened Invariant
  import opened ClientSteps
  import opened Runs
  import opened Frames
  import opened Traffic

  // ----- The ledger --------------------------------------------------------------------------

  function InputsOf(cmds: seq<Msg>): seq<Input> {
    if cmds == [] then []
    else (if InputOf(cmds[0]).Some? then [InputOf(cmds[0]).value] else []) + InputsOf(cmds[1..])
  }

  /** What the latest call into the daemon is about: a power event, or an APDU. */
  function OrderBefore(steps: seq<Step>, k: nat): Option<Input>
    requires k <= |steps|
  {
    if k == 0 then None
    else
      match steps[k - 1]
      case Emulator(PowerEvent(kind)) => Some(if kind == 0x01 then PoweredUp else PoweredDown)
      case Emulator(Ask(apdu)) => Some(Received(apdu))
      case _ => OrderBefore(steps, k - 1)
  }

  /** A step of the emulator thread sends something to connection `i`. */
  predicate Reaches(s: State, step: Step, t: State, i: nat) {
    step.Emulator? && i < |s.conns| && i < |t.conns| && |t.conns[i].down| > |s.conns[i].down|
  }

  /** The power events and APDUs that have reached connection `i` in the first `k` steps, in order:
      whatever the bytes sent are, they are sent for the call the emulator thread is at. */
  function Given(ss: seq<State>, steps: seq<Step>, k: nat, i: nat): seq<Input>
    requires k <= |steps| < |ss|
  {
    if k == 0 then []
    else if Reaches(ss[k - 1], steps[k - 1], ss[k], i) && OrderBefore(steps, k - 1).Some? then
      Given(ss, steps, k - 1, i) + [OrderBefore(steps, k - 1).value]
    else
      Given(ss, steps, k - 1, i)
  }

  /** What a step gives to connection `i`, read off the frame it sends. */
  function GivenBy(s: State, step: Step, i: nat): seq<Input> {
    if step.Emulator? then InputsOf(CommandBy(s, step.eact, i)) else []
  }

  /** All inputs sent to connection `i` in the first `k` steps, read off the frames. */
  function Commanded(ss: seq<State>, steps: seq<Step>, k: nat, i: nat): seq<Input>
    requires k <= |steps| < |ss|
  {
    if k == 0 then [] else Commanded(ss, steps, k - 1, i) + GivenBy(ss[k - 1], steps[k - 1], i)
  }

  /** What has been sent to a connected client and not been processed yet: at most one command,
      behind the last frame of the handshake if that has not been read. */
  function Pending(c: Conn): seq<Input> {
    match c.phase
    case AskedAid => if |c.down| > 1 then InputsOf(c.down[1..]) else []
    case Ready => InputsOf(c.down)
    case Busy(cmd) => InputsOf([cmd])
    case _ => []
  }

  /** Nothing is processed that was not sent, nothing twice, and nothing out of order; and a
      client that has not begun to leave misses only what is pending. */
  predicate Balanced(c: Conn, given: seq<Input>) {
    Clean(c) ==>
      && c.hist <= given
      && (!HasLeft(c) ==> given == c.hist + Pending(c))
  }

  lemma OneInput(cmd: Msg)
    ensures InputsOf([]) == []
    ensures InputsOf([cmd]) == if InputOf(cmd).Some? then [InputOf(cmd).value] else []
  {
    assert [cmd][1..] == [];
  }

  // ----- Steps -------------------------------------------------------------------------------

  /** Between the daemon and a connected client there is at most one command. */
  predicate AtMostOne(c: Conn) {
    match c.phase
    case AskedAid => |c.down| <= 1 || (|c.down| == 2 && c.down[0] == [EDNA_OK])
    case Ready => |c.down| <= 1
    case Busy(_) => c.down == []
    case Fresh => c.down == []
    case AskedVersion => |c.down| <= 1
    case Versioned => c.down == []
    case _ => true
  }

  lemma LockstepShape(w: World, registry: map<seq<byte>, int>, selected: int, comm: Comm, emu: Emu, i: nat, c: Conn)
    requires ConnOk(w, registry, selected, comm, emu, i, c)
    ensures AtMostOne(c)
  {
  }

  lemma ConnBalances(app: seq<Input> -> Rapdu, c: Conn, act: ClientAct, given: seq<Input>)
    requires AtMostOne(c) && ClientCan(c, act) && Clean(c) && Balanced(c, given)
    ensures Balanced(ClientDo(app, c, act), given)
  {
    match c.phase {
      case Busy(cmd) => OneInput(cmd);
      case Ready =>
        assert c.down != [] ==> c.down == [c.down[0]];
        OneInput([]);
      case AskedAid =>
      case Fresh =>
      case AskedVersion =>
      case Versioned =>
      case Leaving =>
      case Closed(_) =>
      case Rogue =>
    }
  }

  lemma ClientBalances(w: World, s: State, j: nat, act: ClientAct, i: nat, given: seq<Input>)
    requires Inv(w, s) && Can(w, s, Client(j, act)) && i < |s.conns| && Balanced(s.conns[i], given)
    ensures Balanced(SetConn(s, j, ClientDo(w.apps(j), s.conns[j], act)).conns[i], given)
  {
    var c := s.conns[i];
    if i == j && Clean(c) {
      assert ConnOk(w, s.registry, Seen(s.selected, c), s.comm, s.emu, i, c);
      LockstepShape(w, s.registry, Seen(s.selected, c), s.comm, s.emu, i, c);
      ConnBalances(w.apps(i), c, act, given);
    } else if i == j {
      assert ClientDo(w.apps(i), c, act).lib == c.lib && ClientDo(w.apps(i), c, act).standing == c.standing;
    }
  }

  lemma CommBalances(w: World, s: State, act: CommAct, i: nat, given: seq<Input>)
    requires Inv(w, s) && CommCan(s, act) && i < |s.conns| && Balanced(s.conns[i], given)
    ensures i < |CommDo(s, act).conns| && Balanced(CommDo(s, act).conns[i], given)
  {
    assert act.Accept? ==> s.backlog[0] in s.backlog;
    CommGreets(s, act, i);
    GreetsBalances(w, s, CommDo(s, act), i, given);
  }

  lemma GreetsBalances(w: World, s: State, t: State, i: nat, given: seq<Input>)
    requires Descriptors(s) && Connections(w, s)
    requires i < |s.conns| && Greets(s, t, i, Greeted(s.comm)) && Balanced(s.conns[i], given)
    ensures i < |t.conns| && Balanced(t.conns[i], given)
  {
    var c, d := s.conns[i], t.conns[i];
    if Sends(s, t, i, []) {
      GreetingBalances(c, d, [], given);
    } else {
      var m :| IsGreeting(m) && Sends(s, t, i, [m]);
      if Clean(c) {
        assert ConnOk(w, s.registry, Seen(s.selected, c), s.comm, s.emu, i, c);
        HandshakeIsDry(s.comm, c);
      }
      GreetingBalances(c, d, [m], given);
    }
  }

  lemma GreetingBalances(c: Conn, d: Conn, ms: seq<Msg>, given: seq<Input>)
    requires Receives(c, d, ms) && Balanced(c, given) && |ms| <= 1
    requires Clean(c) && !HasLeft(c) && ms != [] ==> c.down == [] && (c.phase.AskedVersion? || c.phase.AskedAid?)
    ensures Balanced(d, given)
  {
    assert c.down + [] == c.down;
  }

  /** The client of a handshake in which the daemon writes has nothing unread. */
  lemma HandshakeIsDry(comm: Comm, c: Conn)
    requires HandshakeOk(comm, c) && (comm.SendVersion? || comm.Acknowledge? || comm.Refuse?)
    ensures !HasLeft(c) ==> c.down == [] && (c.phase.AskedVersion? || c.phase.AskedAid?)
  {
  }

  lemma EmuBalances(w: World, s: State, act: EmuAct, i: nat, given: seq<Input>)
    requires Inv(w, s) && EmuCan(s, w.less, act) && i < |s.conns| && Balanced(s.conns[i], given)
    ensures var t := EmuDo(s, w.less, act);
      i < |t.conns| && Balanced(t.conns[i], given + GivenBy(s, Emulator(act), i))
  {
    EmuSends(s, w.less, act, i);
    if CommandBy(s, act, i) != [] && Clean(EmuDo(s, w.less, act).conns[i]) {
      CommandFindsQuiet(w, s, act, i);
    }
    CommandBalances(s.conns[i], EmuDo(s, w.less, act).conns[i], CommandBy(s, act, i), given);
  }

  lemma CommandBalances(c: Conn, d: Conn, ms: seq<Msg>, given: seq<Input>)
    requires Receives(c, d, ms) && Balanced(c, given)
    requires ms != [] && Clean(d) ==> Quiet(c) && |ms| == 1
    ensures Balanced(d, given + InputsOf(ms))
  {
    if ms == [] {
      assert c.down + ms == c.down && given + InputsOf(ms) == given;
    } else if Clean(d) {
      assert ms == [ms[0]];
      QuietBalances(c, ms[0], given);
    }
  }

  lemma CommandFindsQuiet(w: World, s: State, act: EmuAct, i: nat)
    requires Inv(w, s) && EmuCan(s, w.less, act) && i < |s.conns| && CommandBy(s, act, i) != []
    requires i < |EmuDo(s, w.less, act).conns| && Clean(EmuDo(s, w.less, act).conns[i]) && Clean(s.conns[i])
    ensures Trusted(s.conns[i]) && Quiet(s.conns[i]) && |CommandBy(s, act, i)| == 1
  {
    assert ConnOk(w, s.registry, Seen(s.selected, s.conns[i]), s.comm, s.emu, i, s.conns[i]);
    if act.Visit? {
      assert s.registry[act.aid] in s.registry.Values;
    }
  }

  lemma QuietBalances(c: Conn, cmd: Msg, given: seq<Input>)
    requires Quiet(c) && Clean(c) && Balanced(c, given)
    ensures Balanced(c.(down := c.down + [cmd]), given + InputsOf([cmd]))
  {
    OneInput(cmd);
    assert c.phase.Ready? && c.down == [] ==> c.down + [cmd] == [cmd];
    assert c.phase.AskedAid? ==> (c.down + [cmd])[1..] == [cmd];
  }

  lemma StepBalances(w: World, s: State, step: Step, i: nat, given: seq<Input>)
    requires Inv(w, s) && Can(w, s, step) && i < |s.conns| && Balanced(s.conns[i], given)
    ensures var t := Do(w, s, step);
      i < |t.conns| && Balanced(t.conns[i], given + GivenBy(s, step, i))
  {
    match step {
      case Join(_, _) =>
      case Client(j, act) => ClientBalances(w, s, j, act, i, given);
      case Communication(act) => CommBalances(w, s, act, i, given);
      case Emulator(act) => EmuBalances(w, s, act, i, given);
    }
  }

  // ----- Runs --------------------------------------------------------------------------------

  /** Only a client that connects is new, and it is new to both threads. */
  lemma StepAdds(w: World, s: State, step: Step, i: nat)
    requires Can(w, s, step) && |s.conns| <= i
    ensures GivenBy(s, step, i) == []
    ensures i < |Do(w, s, step).conns| ==> Balanced(Do(w, s, step).conns[i], [])
  {
    match step {
      case Join(_, _) =>
      case Client(_, _) =>
      case Communication(act) => CommUntouched(s, act);
      case Emulator(act) =>
        match act {
          case Proceed => ProceedMovesOn(s, w.less);
          case Visit(aid) => VisitMovesOn(s, w.less, aid);
          case PowerEvent(_) =>
          case Ask(_) =>
          case PassDone =>
        }
    }
  }

  ghost predicate FramesBalanced(ss: seq<State>, steps: seq<Step>, k: nat, i: nat)
    requires k <= |steps| < |ss|
  {
    if i < |ss[k].conns| then Balanced(ss[k].conns[i], Commanded(ss, steps, k, i)) else Commanded(ss, steps, k, i) == []
  }

  lemma {:induction false} HistoriesAreCommanded(w: World, ss: seq<State>, steps: seq<Step>, k: nat, i: nat)
    requires IsRun(w, ss, steps) && k <= |steps|
    ensures FramesBalanced(ss, steps, k, i)
  {
    if k > 0 {
      HistoriesAreCommanded(w, ss, steps, k - 1, i);
      RunKeeps(w, ss, steps, k - 1);
      assert ss[k - 1 + 1] == Do(w, ss[k - 1], steps[k - 1]);
      if i < |ss[k - 1].conns| {
        StepBalances(w, ss[k - 1], steps[k - 1], i, Commanded(ss, steps, k - 1, i));
      } else {
        StepAdds(w, ss[k - 1], steps[k - 1], i);
      }
    }
  }

  // ----- What the frames mean ----------------------------------------------------------------

  /** The emulator thread is where the latest call into the daemon has brought it. */
  predicate AtOrder(emu: Emu, order: Option<Input>) {
    match emu
    case Idle => true
    case PowerWanted(kind) => IsPower(kind, order)
    case Power(kind, _) => IsPower(kind, order)
    case PowerSent(kind, _, _) => IsPower(kind, order)
    case Wanted(apdu, _) => order == Some(Received(apdu))
    case Locked(apdu, _) => order == Some(Received(apdu))
    case Sent(apdu, _, _, _) => order == Some(Received(apdu))
    case Failed(apdu, _) => order == Some(Received(apdu))
  }

  predicate IsPower(kind: byte, order: Option<Input>) {
    (kind == 0x01 && order == Some(PoweredUp)) || (kind == 0x02 && order == Some(PoweredDown))
  }

  lemma StepOrders(w: World, s: State, step: Step, order: Option<Input>)
    requires Can(w, s, step) && AtOrder(s.emu, order)
    ensures AtOrder(Do(w, s, step).emu, OrderBefore([step], 1)) || OrderBefore([step], 1).None?
    ensures OrderBefore([step], 1).None? ==> AtOrder(Do(w, s, step).emu, order)
  {
    assert OrderBefore([step], 0).None?;
    match step {
      case Join(_, _) =>
      case Client(_, _) =>
      case Communication(act) => CommUntouched(s, act);
      case Emulator(act) =>
        match act {
          case Proceed => ProceedMovesOn(s, w.less);
          case Visit(aid) => WriteUntouched(s, s.registry[aid], [s.emu.kind]);
          case PowerEvent(_) =>
          case Ask(apdu) =>
          case PassDone =>
        }
    }
  }

  lemma {:induction false} RunOrders(w: World, ss: seq<State>, steps: seq<Step>, k: nat)
    requires IsRun(w, ss, steps) && k <= |steps|
    ensures AtOrder(ss[k].emu, OrderBefore(steps, k))
  {
    if k > 0 {
      RunOrders(w, ss, steps, k - 1);
      assert ss[k - 1 + 1] == Do(w, ss[k - 1], steps[k - 1]);
      StepOrders(w, ss[k - 1], steps[k - 1], OrderBefore(steps, k - 1));
      assert OrderBefore([steps[k - 1]], 0).None?;
    }
  }

  /** A frame is sent exactly when a connection is reached, and says what the call is about. */
  lemma FrameSays(w: World, s: State, step: Step, i: nat, order: Option<Input>)
    requires Can(w, s, step) && AtOrder(s.emu, order)
    ensures GivenBy(s, step, i) == if Reaches(s, step, Do(w, s, step), i) && order.Some? then [order.value] else []
  {
    if step.Emulator? && i < |s.conns| {
      EmuSends(s, w.less, step.eact, i);
      OneInput([]);
      if CommandBy(s, step.eact, i) != [] {
        var cmd: Msg := CommandBy(s, step.eact, i)[0];
        OneInput(cmd);
        assert cmd[0] == TRANSCEIVE_APDU && s.emu.Locked? ==> cmd[1..] == s.emu.apdu;
      }
    } else if step.Emulator? {
      StepAdds(w, s, step, i);
    }
  }

  lemma {:induction false} FramesAreGiven(w: World, ss: seq<State>, steps: seq<Step>, k: nat, i: nat)
    requires IsRun(w, ss, steps) && k <= |steps|
    ensures Commanded(ss, steps, k, i) == Given(ss, steps, k, i)
  {
    if k > 0 {
      FramesAreGiven(w, ss, steps, k - 1, i);
      RunOrders(w, ss, steps, k - 1);
      assert ss[k - 1 + 1] == Do(w, ss[k - 1], steps[k - 1]);
      FrameSays(w, ss[k - 1], steps[k - 1], i, OrderBefore(steps, k - 1));
    }
  }

  ghost predicate RunBalanced(ss: seq<State>, steps: seq<Step>, k: nat, i: nat)
    requires k <= |steps| < |ss|
  {
    if i < |ss[k].conns| then Balanced(ss[k].conns[i], Given(ss, steps, k, i)) else Given(ss, steps, k, i) == []
  }

  /** In every run a clean client has processed, in order and once each, a first part of the power
      events and APDUs for which something was sent to it: all but the pending one as long as it
      has not begun to leave. */
  lemma HistoriesAreGiven(w: World, ss: seq<State>, steps: seq<Step>, k: nat, i: nat)
    requires IsRun(w, ss, steps) && k <= |steps|
    ensures RunBalanced(ss, steps, k, i)
  {
    HistoriesAreCommanded(w, ss, steps, k, i);
    FramesAreGiven(w, ss, steps, k, i);
  }

  // ----- One exchange ------------------------------------------------------------------------

  /** The exchange in progress is the last thing given to its client. */
  predicate Recorded(s: State, given: seq<Input>)
    requires s.emu.Sent?
  {
    && s.emu.conn < |s.conns|
    && (Clean(s.conns[s.emu.conn]) && !HasLeft(s.conns[s.emu.conn]) ==>
          given == s.emu.before + [Received(s.emu.apdu)])
  }

  lemma SendRecords(w: World, s: State, given: seq<Input>)
    requires Inv(w, s) && s.emu.Locked? && ProceedDo(s, w.less).emu.Sent?
    requires var i := ProceedDo(s, w.less).emu.conn; i < |s.conns| ==> Balanced(s.conns[i], given)
    ensures var t := ProceedDo(s, w.less);
      Recorded(t, given + GivenBy(s, Emulator(Proceed), t.emu.conn))
  {
    var i := s.open[s.selected];
    EmuSends(s, w.less, Proceed, i);
    if Clean(ProceedDo(s, w.less).conns[i]) && !HasLeft(s.conns[i]) {
      CommandFindsQuiet(w, s, Proceed, i);
      var cmd: Msg := [TRANSCEIVE_APDU] + s.emu.apdu;
      OneInput(cmd);
      assert cmd[1..] == s.emu.apdu;
    }
  }

  /** While a response is awaited, nobody is given anything, and nobody comes back. */
  lemma WaitingRecords(w: World, s: State, step: Step, given: seq<Input>)
    requires Descriptors(s) && Can(w, s, step) && s.emu.Sent? && Do(w, s, step).emu.Sent? && Recorded(s, given)
    ensures Do(w, s, step).emu == s.emu
    ensures Recorded(Do(w, s, step), given + GivenBy(s, step, s.emu.conn))
  {
    match step {
      case Join(_, _) =>
      case Client(j, act) => ClientFrame(w.apps(j), s.conns[j], act);
      case Communication(act) =>
        assert act.Accept? ==> s.backlog[0] in s.backlog;
        CommUntouched(s, act);
        CommGreets(s, act, s.emu.conn);
      case Emulator(_) => ProceedMovesOn(s, w.less);
    }
  }

  lemma {:induction false} ExchangesRecorded(w: World, ss: seq<State>, steps: seq<Step>, k: nat)
    requires IsRun(w, ss, steps) && k <= |steps|
    ensures ss[k].emu.Sent? ==> Recorded(ss[k], Commanded(ss, steps, k, ss[k].emu.conn))
  {
    if k > 0 && ss[k].emu.Sent? {
      var s, step := ss[k - 1], steps[k - 1];
      RunKeeps(w, ss, steps, k - 1);
      assert ss[k - 1 + 1] == Do(w, s, step);
      if s.emu.Sent? {
        ExchangesRecorded(w, ss, steps, k - 1);
        WaitingRecords(w, s, step, Commanded(ss, steps, k - 1, s.emu.conn));
      } else {
        OnlyLockedSends(w, s, step);
        HistoriesAreCommanded(w, ss, steps, k - 1, ss[k].emu.conn);
        SendRecords(w, s, Commanded(ss, steps, k - 1, ss[k].emu.conn));
      }
    }
  }

  lemma OnlyLockedSends(w: World, s: State, step: Step)
    requires Can(w, s, step) && !s.emu.Sent? && Do(w, s, step).emu.Sent?
    ensures step == Emulator(Proceed) && s.emu.Locked?
  {
    match step {
      case Join(_, _) =>
      case Client(_, _) =>
      case Communication(act) => CommUntouched(s, act);
      case Emulator(act) =>
        match act {
          case Proceed => ProceedMovesOn(s, w.less);
          case Visit(aid) => VisitMovesOn(s, w.less, aid);
          case PowerEvent(_) =>
          case Ask(_) =>
          case PassDone =>
        }
    }
  }

  /** Calls compose: when the response to a call has been read from a trusted client that has
      not begun to leave, that client has processed what it had at the call and this APDU, once;
      and that is all it was ever given. */
  lemma ExchangeAddsOne(w: World, ss: seq<State>, steps: seq<Step>, k: nat)
    requires IsRun(w, ss, steps) && k < |steps| && steps[k] == Emulator(Proceed) && ss[k].emu.Sent?
    ensures var (s, sel) := (ss[k], SelectOn(ss[k].emu.card, ss[k].emu.apdu).sel);
      sel.App? && sel.conn < |s.conns| && Clean(s.conns[sel.conn]) && !HasLeft(s.conns[sel.conn]) ==>
        && sel.conn < |s.emu.card.hist|
        && s.conns[sel.conn].hist == s.emu.card.hist[sel.conn] + [Received(s.emu.apdu)]
        && s.conns[sel.conn].hist == Given(ss, steps, k, sel.conn)
  {
    var s, sel := ss[k], SelectOn(ss[k].emu.card, ss[k].emu.apdu).sel;
    RunKeeps(w, ss, steps, k);
    ExchangesRecorded(w, ss, steps, k);
    if sel.App? && sel.conn < |s.conns| && Clean(s.conns[sel.conn]) && !HasLeft(s.conns[sel.conn]) {
      HistoriesAreGiven(w, ss, steps, k, sel.conn);
      FramesAreGiven(w, ss, steps, k, sel.conn);
      ResponseIsLast(w, s, sel.conn);
    }
  }

  lemma ResponseIsLast(w: World, s: State, i: nat)
    requires Inv(w, s) && s.emu.Sent? && Readable(s, s.selected)
    requires SelectOn(s.emu.card, s.emu.apdu).sel == App(i) && i < |s.conns|
    requires Clean(s.conns[i]) && !HasLeft(s.conns[i])
    ensures s.emu.conn == i < |s.emu.card.hist| && s.emu.before == s.emu.card.hist[i]
    ensures Pending(s.conns[i]) == []
  {
    assert ConnOk(w, s.registry, Seen(s.selected, s.conns[i]), s.comm, s.emu, i, s.conns[i]);
  }
}

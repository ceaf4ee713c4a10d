/** What the whole system guarantees over every run, under every schedule. */
module Theorems {
  import opened Bytes
  import opened Protocol
  import opened System
  import opened Invariant
  import opened Runs
  import opened Frames
  import opened Traffic

  // ----- End-to-end refinement ---------------------------------------------------------------

  /** Every completed call of `transceive` returned what the abstract card answered at the call:
      6f00 to a malformed SELECT, 6d00 with nothing selected, otherwise the selected client's own
      response to that very APDU.  Only a client that has left can make an exchange fail, and
      only a selection recycled during that very call can make another client answer. */
  lemma EndToEnd(w: World, ss: seq<State>, steps: seq<Step>, k: nat, a: Answer)
    requires IsRun(w, ss, steps) && k < |ss| && a in ss[k].answers
    ensures ParseSelect(a.apdu).Malformed? ==> a.result == Some(SW_NO_DIAGNOSIS)
    ensures !ParseSelect(a.apdu).Malformed? ==>
      match SelectOn(a.card, a.apdu).sel
      case Nobody => a.result == Some(SW_INS_NOT_SUPPORTED)
      case Stale => a.result.None? || a.reused
      case App(i) =>
        && i < |a.card.hist| <= |ss[k].conns|
        && (Clean(ss[k].conns[i]) && !HasLeft(ss[k].conns[i]) ==>
              a.result == Some(w.apps(i)(a.card.hist[i] + [Received(a.apdu)])))
        && (Clean(ss[k].conns[i]) && !a.reused && a.result.Some? ==>
              a.result == Some(w.apps(i)(a.card.hist[i] + [Received(a.apdu)])))
  {
    RunKeeps(w, ss, steps, k);
    var j :| 0 <= j < |ss[k].answers| && ss[k].answers[j] == a;
    assert Answered(w, ss[k], ss[k].answers[j]);
  }

  // ----- Calls and answers -------------------------------------------------------------------

  /** The call a step makes: its APDU and the abstract card of that moment. */
  function CallBy(s: State, step: Step): seq<(Capdu, Card)> {
    match step
    case Emulator(Ask(apdu)) => [(apdu, Abs(s))]
    case _ => []
  }

  function Calls(ss: seq<State>, steps: seq<Step>, k: nat): seq<(Capdu, Card)>
    requires k <= |steps| < |ss|
  {
    if k == 0 then [] else Calls(ss, steps, k - 1) + CallBy(ss[k - 1], steps[k - 1])
  }

  /** The calls that have been answered, and the one in hand. */
  function AnsweredCalls(answers: seq<Answer>): seq<(Capdu, Card)> {
    seq(|answers|, (n: nat) requires n < |answers| => (answers[n].apdu, answers[n].card))
  }

  function InHand(emu: Emu): seq<(Capdu, Card)> {
    match emu
    case Wanted(apdu, card) => [(apdu, card)]
    case Locked(apdu, card) => [(apdu, card)]
    case Sent(apdu, card, _, _) => [(apdu, card)]
    case Failed(apdu, card) => [(apdu, card)]
    case _ => []
  }

  lemma EmuAnswers(w: World, s: State, act: EmuAct)
    requires EmuCan(s, w.less, act)
    ensures var t := EmuDo(s, w.less, act);
      AnsweredCalls(t.answers) + InHand(t.emu) == AnsweredCalls(s.answers) + InHand(s.emu) + CallBy(s, Emulator(act))
  {
    match act {
      case Proceed => ProceedMovesOn(s, w.less);
      case Visit(aid) => VisitMovesOn(s, w.less, aid);
      case PowerEvent(_) =>
      case Ask(apdu) => AskAnswers(s, apdu);
      case PassDone =>
    }
  }

  lemma AskAnswers(s: State, apdu: Capdu)
    requires s.emu.Idle?
    ensures AnsweredCalls(AskDo(s, apdu).answers) + InHand(AskDo(s, apdu).emu)
         == AnsweredCalls(s.answers) + [(apdu, Abs(s))]
  {
  }

  lemma StepAnswers(w: World, s: State, step: Step)
    requires Can(w, s, step)
    ensures var t := Do(w, s, step);
      AnsweredCalls(t.answers) + InHand(t.emu) == AnsweredCalls(s.answers) + InHand(s.emu) + CallBy(s, step)
  {
    match step {
      case Join(_, _) =>
      case Client(_, _) =>
      case Communication(act) => CommUntouched(s, act);
      case Emulator(act) => EmuAnswers(w, s, act);
    }
  }

  /** In every run the answers are, in order, those to the calls made, each judged against the
      card at its own call; at most the last call is still in hand. */
  lemma {:induction false} AnswersMatchCalls(w: World, ss: seq<State>, steps: seq<Step>, k: nat)
    requires IsRun(w, ss, steps) && k <= |steps|
    ensures Calls(ss, steps, k) == AnsweredCalls(ss[k].answers) + InHand(ss[k].emu)
  {
    if k > 0 {
      AnswersMatchCalls(w, ss, steps, k - 1);
      assert ss[k - 1 + 1] == Do(w, ss[k - 1], steps[k - 1]);
      StepAnswers(w, ss[k - 1], steps[k - 1]);
    }
  }

  // ----- What a failed exchange costs --------------------------------------------------------

  /** The call after a failed one was, or will be, made with nothing selected. */
  predicate Recovered(answers: seq<Answer>) {
    forall n | 0 < n < |answers| && answers[n - 1].result.None? :: answers[n].card.sel.Nobody?
  }

  predicate Recovering(s: State) {
    s.answers != [] && s.answers[|s.answers| - 1].result.None? ==>
      match s.emu
      case Wanted(_, card) => card.sel.Nobody?
      case Locked(_, card) => card.sel.Nobody?
      case Sent(_, card, _, _) => card.sel.Nobody?
      case Failed(_, card) => card.sel.Nobody?
      case _ => s.selected == NO_APP_SELECTED
  }

  lemma EmuRecovers(w: World, s: State, act: EmuAct)
    requires EmuCan(s, w.less, act) && Recovered(s.answers) && Recovering(s)
    ensures Recovered(EmuDo(s, w.less, act).answers) && Recovering(EmuDo(s, w.less, act))
  {
    match act {
      case Proceed => ProceedMovesOn(s, w.less);
      case Visit(aid) => VisitMovesOn(s, w.less, aid);
      case PowerEvent(_) =>
      case Ask(apdu) => AskRecovers(s, apdu);
      case PassDone =>
    }
  }

  /** A call is answered at once or begins. */
  predicate AskedFor(s: State, t: State, apdu: Capdu) {
    || (t.emu.Idle? && t.selected == s.selected
        && |t.answers| == |s.answers| + 1 && t.answers[..|s.answers|] == s.answers
        && t.answers[|s.answers|].card == Abs(s) && t.answers[|s.answers|].result.Some?)
    || (t.answers == s.answers && t.emu == Wanted(apdu, Abs(s)))
  }

  lemma AskOutcome(s: State, apdu: Capdu)
    requires s.emu.Idle?
    ensures AskedFor(s, AskDo(s, apdu), apdu)
  {
  }

  lemma AskRecovers(s: State, apdu: Capdu)
    requires s.emu.Idle? && Recovered(s.answers) && Recovering(s)
    ensures Recovered(AskDo(s, apdu).answers) && Recovering(AskDo(s, apdu))
  {
    AskOutcome(s, apdu);
    OutcomeRecovers(s, AskDo(s, apdu), apdu);
  }

  lemma OutcomeRecovers(s: State, t: State, apdu: Capdu)
    requires s.emu.Idle? && Recovered(s.answers) && Recovering(s) && AskedFor(s, t, apdu)
    ensures Recovered(t.answers) && Recovering(t)
  {
    assert s.selected == NO_APP_SELECTED ==> Abs(s).sel.Nobody?;
    forall n | 0 < n < |t.answers| && t.answers[n - 1].result.None?
      ensures t.answers[n].card.sel.Nobody?
    {
      assert t.answers[n - 1] == s.answers[n - 1];
      assert n < |s.answers| ==> t.answers[n] == s.answers[n];
    }
  }

  lemma StepRecovers(w: World, s: State, step: Step)
    requires Can(w, s, step) && Recovered(s.answers) && Recovering(s)
    ensures Recovered(Do(w, s, step).answers) && Recovering(Do(w, s, step))
  {
    match step {
      case Join(_, _) =>
      case Client(_, _) =>
      case Communication(act) => CommUntouched(s, act);
      case Emulator(act) => EmuRecovers(w, s, act);
    }
  }

  /** A stale selection costs one failed exchange: the next call finds nothing selected. */
  lemma {:induction false} FailureCostsOne(w: World, ss: seq<State>, steps: seq<Step>, k: nat)
    requires IsRun(w, ss, steps) && k <= |steps|
    ensures Recovered(ss[k].answers) && Recovering(ss[k])
  {
    if k > 0 {
      FailureCostsOne(w, ss, steps, k - 1);
      assert ss[k - 1 + 1] == Do(w, ss[k - 1], steps[k - 1]);
      StepRecovers(w, ss[k - 1], steps[k - 1]);
    }
  }

  /** Exactly one: the call on a stale selection fails, and the next one does not, unless it
      selects another application. */
  lemma StaleCostsOne(w: World, ss: seq<State>, steps: seq<Step>, k: nat, n: nat)
    requires IsRun(w, ss, steps) && k <= |steps| && n + 1 < |ss[k].answers|
    ensures var a, next := ss[k].answers[n], ss[k].answers[n + 1];
      && (!ParseSelect(a.apdu).Malformed? && SelectOn(a.card, a.apdu).sel.Stale? && !a.reused ==> a.result.None?)
      && (a.result.None? ==>
            && next.card.sel.Nobody?
            && (SelectOn(next.card, next.apdu).sel.Nobody? ==> next.result.Some?))
  {
    var a, next := ss[k].answers[n], ss[k].answers[n + 1];
    EndToEnd(w, ss, steps, k, a);
    EndToEnd(w, ss, steps, k, next);
    FailureCostsOne(w, ss, steps, k);
    assert n + 1 - 1 == n;
    assert a.result.None? ==> ss[k].answers[n + 1].card.sel.Nobody?;
  }

  // ----- Lockstep ----------------------------------------------------------------------------

  /** No command unread or unanswered, no response unread. */
  predicate InStep(c: Conn) {
    && c.up == []
    && ((c.phase.Ready? && c.down == []) || (c.phase.AskedAid? && c.down == [[EDNA_OK]]))
  }

  /** Commands unread, being processed, or answered but not yet read by the daemon. */
  function Load(c: Conn): nat {
    |c.up| + (if c.phase.Busy? then 1 else 0)
    + (if c.phase.AskedAid? && c.down != [] then |c.down| - 1 else |c.down|)
  }

  /** Every registered client that has not begun to leave is in step whenever the mutex is free;
      while it is held, only the one connection being waited on is not, by exactly one command. */
  lemma Lockstep(w: World, ss: seq<State>, steps: seq<Step>, k: nat, aid: seq<byte>)
    requires IsRun(w, ss, steps) && k < |ss| && aid in ss[k].registry
    ensures IsOpen(ss[k], ss[k].registry[aid])
    ensures var c := ConnOf(ss[k], ss[k].registry[aid]);
      Trusted(c) && !HasLeft(c) ==>
        && (InStep(c) <==> Load(c) == 0)
        && (InStep(c) || (Held(ss[k]) && Targets(ss[k].emu, ss[k].selected, c.fd) && Load(c) == 1))
  {
    RunKeeps(w, ss, steps, k);
    var s := ss[k];
    var fd := s.registry[aid];
    assert fd in s.registry.Values;
    assert fd in s.open.Keys;
    var i := s.open[fd];
    assert i < |s.conns|;
    assert Trusted(s.conns[i]) ==> ConnOk(w, s.registry, s.selected, s.comm, s.emu, i, s.conns[i]);
  }

  /** What the communications thread reads from a reported connection of a trusted client is
      that client's DISCONNECT, never a response. */
  lemma ServesOnlyDisconnects(w: World, ss: seq<State>, steps: seq<Step>, k: nat, fd: int)
    requires IsRun(w, ss, steps) && k < |ss| && CommCan(ss[k], Handle(fd))
    ensures IsOpen(ss[k], fd)
    ensures Trusted(ConnOf(ss[k], fd)) ==>
      && HasLeft(ConnOf(ss[k], fd))
      && (Incoming(ss[k], fd) == None || Incoming(ss[k], fd) == Some([DISCONNECT]))
      && CommDo(ss[k], Handle(fd)).comm == Dropping(fd)
  {
    RunKeeps(w, ss, steps, k);
    var s := ss[k];
    var i := s.open[fd];
    assert Trusted(s.conns[i]) ==> ConnOk(w, s.registry, s.selected, s.comm, s.emu, i, s.conns[i]);
  }

  /** A trusted client never meets a command it does not know. */
  lemma NoUnknownCommand(w: World, ss: seq<State>, steps: seq<Step>, k: nat, i: nat)
    requires IsRun(w, ss, steps) && k < |ss| && i < |ss[k].conns|
    requires Trusted(ss[k].conns[i]) && ss[k].conns[i].phase.Busy?
    ensures InputOf(ss[k].conns[i].phase.cmd).Some?
    ensures ReplyTo(w.apps(i), ss[k].conns[i].hist, ss[k].conns[i].phase.cmd)[0] == EDNA_OK
  {
    RunKeeps(w, ss, steps, k);
    var s := ss[k];
    assert ConnOk(w, s.registry, s.selected, s.comm, s.emu, i, s.conns[i]);
  }

  // ----- Registration ------------------------------------------------------------------------

  /** `edna_lib_connect` has returned ERV_OK to a trusted client that has not left: its AID is
      bound to its connection, or is about to be by an insertion nothing can stop.  In
      particular the daemon never drops such a client. */
  lemma ConnectedIsBound(w: World, ss: seq<State>, steps: seq<Step>, k: nat, i: nat)
    requires IsRun(w, ss, steps) && k < |ss| && i < |ss[k].conns|
    requires Trusted(ss[k].conns[i]) && (ss[k].conns[i].phase.Ready? || ss[k].conns[i].phase.Busy?)
    ensures var c := ss[k].conns[i];
      && !c.shut && !c.refused && SoundAid(c.aid)
      && c.fd in ss[k].open && ss[k].open[c.fd] == i
      && ((c.aid in ss[k].registry && ss[k].registry[c.aid] == c.fd)
          || (ss[k].comm == Insert(c.fd, c.aid) && c.aid !in ss[k].registry))
  {
    RunKeeps(w, ss, steps, k);
    var s := ss[k];
    assert ConnOk(w, s.registry, s.selected, s.comm, s.emu, i, s.conns[i]);
  }

  /** The errors of `edna_lib_connect`: ERV_ALREADY_REGISTERED only after the daemon found the
      AID taken, ERV_DISCONNECTED only for an empty or oversize AID, and never a version
      mismatch.  Neither an unsound nor a refused AID is ever bound to its client. */
  lemma ConnectErrors(w: World, ss: seq<State>, steps: seq<Step>, k: nat, i: nat)
    requires IsRun(w, ss, steps) && k < |ss| && i < |ss[k].conns| && Trusted(ss[k].conns[i])
    ensures var c := ss[k].conns[i];
      && (c.phase == Closed(AlreadyRegistered) ==> c.refused && SoundAid(c.aid))
      && (c.phase == Closed(Disconnected) ==> !SoundAid(c.aid) && !c.refused)
      && c.phase != Closed(VersionMismatch)
      && (c.refused || !SoundAid(c.aid) ==>
            !c.phase.Ready? && !c.phase.Busy? && (c.fd >= 0 ==> c.fd !in ss[k].registry.Values))
  {
    RunKeeps(w, ss, steps, k);
    var s := ss[k];
    assert ConnOk(w, s.registry, s.selected, s.comm, s.emu, i, s.conns[i]);
  }

  // ----- The registry over a run -------------------------------------------------------------

  /** First registration wins: a step leaves the registry alone, adds one key that was absent
      and is not empty, or removes the one entry of a descriptor it closes. */
  lemma RegistrySteps(w: World, ss: seq<State>, steps: seq<Step>, k: nat)
    requires IsRun(w, ss, steps) && k < |steps|
    ensures var before, after := ss[k].registry, ss[k + 1].registry;
      || after == before
      || (exists aid, fd :: aid != [] && aid !in before && fd !in before.Values && after == before[aid := fd])
      || (exists aid :: aid in before && after == before - {aid} && before[aid] !in ss[k + 1].open)
  {
    RunKeeps(w, ss, steps, k);
    var s, t := ss[k], Do(w, ss[k], steps[k]);
    if steps[k] == Communication(Advance) && s.comm.Insert? {
      assert s.comm.aid !in s.registry && t.registry == s.registry[s.comm.aid := s.comm.fd];
      assert s.comm.fd in HandFd(s.comm);
    } else if steps[k] == Communication(Advance) && s.comm.Dropping? {
      UnregisterRemoves(w, s, s.comm.fd);
    } else if steps[k] == Emulator(Proceed) && s.emu.Failed? {
      UnregisterRemoves(w, s, s.selected);
    } else if steps[k].Communication? {
      CommUntouched(s, steps[k].mact);
    } else if steps[k].Emulator? {
      EmuRegistry(w, s, steps[k].eact);
    }
  }

  lemma UnregisterRemoves(w: World, s: State, fd: int)
    requires Inv(w, s)
    ensures fd !in s.registry.Values ==> Unregister(s, fd) == s
    ensures fd in s.registry.Values ==>
      exists aid :: aid in s.registry && s.registry[aid] == fd
        && Unregister(s, fd).registry == s.registry - {aid} && Unregister(s, fd).open == s.open - {fd}
  {
    if fd in s.registry.Values {
      var aid :| aid in s.registry && s.registry[aid] == fd;
      assert Without(s.registry, fd) == s.registry - {aid};
    }
  }

  lemma EmuRegistry(w: World, s: State, act: EmuAct)
    requires EmuCan(s, w.less, act) && !(act.Proceed? && s.emu.Failed?)
    ensures EmuDo(s, w.less, act).registry == s.registry
  {
    match act {
      case Proceed => ProceedRegistry(s, w.less);
      case Visit(aid) => WriteUntouched(s, s.registry[aid], [s.emu.kind]);
      case PowerEvent(_) =>
      case Ask(_) =>
      case PassDone =>
    }
  }

  lemma ProceedRegistry(s: State, less: (seq<byte>, seq<byte>) -> bool)
    requires EmuCan(s, less, Proceed) && !s.emu.Failed?
    ensures ProceedDo(s, less).registry == s.registry
  {
    match s.emu {
      case PowerWanted(_) =>
      case PowerSent(_, _, fd) => ReadUntouched(s, fd);
      case Wanted(_, _) =>
      case Locked(apdu, _) => WriteUntouched(Judge(s, Misled), s.selected, [TRANSCEIVE_APDU] + apdu);
      case Sent(_, _, _, _) => ReadUntouched(s, s.selected);
    }
  }

  /** Open client descriptors are exactly the registered ones and the one being registered; no
      descriptor is registered twice, and no descriptor is closed that is not open. */
  lemma DescriptorsConserved(w: World, ss: seq<State>, steps: seq<Step>, k: nat)
    requires IsRun(w, ss, steps) && k < |ss|
    ensures ss[k].open.Keys == ss[k].registry.Values + HandFd(ss[k].comm)
    ensures ss[k].registry.Values !! HandFd(ss[k].comm)
    ensures Injective(ss[k].registry) && [] !in ss[k].registry
    ensures ss[k].stray == 0
    ensures forall a, b | a in ss[k].open && b in ss[k].open && ss[k].open[a] == ss[k].open[b] :: a == b
  {
    RunKeeps(w, ss, steps, k);
  }

  // ----- Routing over a run ------------------------------------------------------------------

  /** The step drops any selection: a power event, or the end of a failed exchange. */
  predicate Clears(s: State, step: Step) {
    || (step.Emulator? && step.eact.PowerEvent?)
    || (step == Emulator(Proceed) && s.emu.Failed?)
  }

  /** The step is the call of `transceive` with a SELECT of a registered AID. */
  predicate Matches(s: State, step: Step) {
    && step.Emulator? && step.eact.Ask?
    && ParseSelect(step.eact.apdu).Select? && ParseSelect(step.eact.apdu).aid in s.registry
  }

  /** The descriptor registered for the AID of the latest matching SELECT, at the time of that
      SELECT, unless a power event or a failed exchange came after it. */
  function LatestSelect(ss: seq<State>, steps: seq<Step>, k: nat): int
    requires k <= |steps| < |ss|
  {
    if k == 0 || Clears(ss[k - 1], steps[k - 1]) then NO_APP_SELECTED
    else if Matches(ss[k - 1], steps[k - 1]) then
      ss[k - 1].registry[ParseSelect(steps[k - 1].eact.apdu).aid]
    else LatestSelect(ss, steps, k - 1)
  }

  lemma EmuSelected(w: World, s: State, act: EmuAct)
    requires Inv(w, s) && EmuCan(s, w.less, act)
    ensures EmuDo(s, w.less, act).selected ==
      if Clears(s, Emulator(act)) then NO_APP_SELECTED
      else if Matches(s, Emulator(act)) then s.registry[ParseSelect(act.apdu).aid]
      else s.selected
  {
    if Matches(s, Emulator(act)) {
      assert s.registry[ParseSelect(act.apdu).aid] in s.registry.Values;
    }
  }

  /** In every run the daemon's selection is the one the latest matching SELECT made. */
  lemma {:induction false} SelectionIsLatest(w: World, ss: seq<State>, steps: seq<Step>, k: nat)
    requires IsRun(w, ss, steps) && k <= |steps|
    ensures ss[k].selected == LatestSelect(ss, steps, k)
  {
    if k > 0 {
      SelectionIsLatest(w, ss, steps, k - 1);
      RunKeeps(w, ss, steps, k - 1);
      var s := ss[k - 1];
      assert ss[k - 1 + 1] == Do(w, s, steps[k - 1]);
      match steps[k - 1] {
        case Join(_, _) =>
        case Client(_, _) =>
        case Communication(act) => CommUntouched(s, act);
        case Emulator(act) =>
          EmuSelected(w, s, act);
      }
    }
  }

  /** Between `s` and `t` connection `i` is sent the command APDU `m`. */
  predicate IsSent(s: State, t: State, i: nat, m: Msg) {
    && i < |s.conns| && i < |t.conns| && t.conns[i].down == s.conns[i].down + [m]
    && m != [] && m[0] == TRANSCEIVE_APDU
  }

  /** A TRANSCEIVE_APDU frame reaches only the connection behind that selection. */
  lemma CommandsAreRouted(w: World, ss: seq<State>, steps: seq<Step>, k: nat, i: nat, m: Msg)
    requires IsRun(w, ss, steps) && k < |steps|
    ensures IsSent(ss[k], ss[k + 1], i, m) ==>
      && LatestSelect(ss, steps, k) in ss[k].open && ss[k].open[LatestSelect(ss, steps, k)] == i
      && ss[k].emu.Locked? && m == [TRANSCEIVE_APDU] + ss[k].emu.apdu
  {
    if IsSent(ss[k], ss[k + 1], i, m) {
      RunKeeps(w, ss, steps, k);
      SelectionIsLatest(w, ss, steps, k);
      StepSends(w, ss[k], steps[k], i, m);
    }
  }

  lemma StepSends(w: World, s: State, step: Step, i: nat, m: Msg)
    requires Inv(w, s) && Can(w, s, step) && IsSent(s, Do(w, s, step), i, m)
    ensures s.emu.Locked? && m == [TRANSCEIVE_APDU] + s.emu.apdu && s.selected in s.open && s.open[s.selected] == i
  {
    var down := s.conns[i].down;
    assert |down + [m]| == |down| + 1 && (down + [m])[|down|] == m;
    match step {
      case Join(_, _) => assert false;
      case Client(j, act) => ClientReads(w, s, j, act, i);
      case Communication(act) =>
        assert act.Accept? ==> s.backlog[0] in s.backlog;
        CommSends(s, act, i, m);
      case Emulator(act) =>
        EmuSends(s, w.less, act, i);
        assert CommandBy(s, act, i) == [m];
    }
  }

  lemma CommSends(s: State, act: CommAct, i: nat, m: Msg)
    requires CommCan(s, act) && Unaccepted(s, act) && i < |s.conns|
    ensures !IsSent(s, CommDo(s, act), i, m)
  {
    CommGreets(s, act, i);
    var t, down := CommDo(s, act), s.conns[i].down;
    if !Sends(s, t, i, []) {
      var g :| IsGreeting(g) && Sends(s, t, i, [g]);
      assert t.conns[i].down[|down|] == g;
      assert (down + [m])[|down|] == m;
    }
  }

  lemma ClientReads(w: World, s: State, j: nat, act: ClientAct, i: nat)
    requires Can(w, s, Client(j, act)) && i < |s.conns|
    ensures |SetConn(s, j, ClientDo(w.apps(j), s.conns[j], act)).conns[i].down| <= |s.conns[i].down|
  {
  }
}

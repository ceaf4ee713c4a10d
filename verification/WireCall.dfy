/** The calls of `transceive` in the step machine, with the clients' own steps in between, are those
    of the daemon's class. */
module WireCall {
  import opened Bytes
  import opened Protocol
  import opened Framing
  import opened System
  import opened Invariant
  import opened Runs
  import opened Frames
  import opened OnTheWire
  import D = CommThread
  import N = Transport

  // ----- Steps of a call ---------------------------------------------------------------------

  /** The registry and the descriptors stay, and no call is completed. */
  predicate Stays(s: State, t: State) {
    && t.registry == s.registry && t.selected == s.selected && t.open == s.open
    && t.answers == s.answers && t.comm == s.comm
  }

  /** The call is made: it is answered at once, or an exchange is wanted. */
  ghost predicate Asks(s: State, t: State, apdu: Capdu, fd: int) {
    && Still(s, t) && t.registry == s.registry && t.open == s.open && t.comm == s.comm
    && if ParseSelect(apdu).Malformed? || fd == NO_APP_SELECTED then
         && t.emu.Idle? && t.selected == s.selected && |t.answers| == |s.answers| + 1
         && t.answers[|s.answers|].result ==
              Some(if ParseSelect(apdu).Malformed? then SW_NO_DIAGNOSIS else SW_INS_NOT_SUPPORTED)
       else
         t.emu.Wanted? && t.emu.apdu == apdu && t.selected == fd && t.answers == s.answers
  }

  lemma AskAsks(s: State, apdu: Capdu)
    requires s.emu.Idle?
    ensures Asks(s, AskDo(s, apdu), apdu, Route(s.registry, s.selected, apdu))
  {
  }

  lemma WantedStill(s: State, less: (seq<byte>, seq<byte>) -> bool)
    requires s.emu.Wanted?
    ensures var t := ProceedDo(s, less); Still(s, t) && Stays(s, t) && t.emu.Locked? && t.emu.apdu == s.emu.apdu
  {
  }

  lemma LockedWrites(s: State, less: (seq<byte>, seq<byte>) -> bool)
    requires s.emu.Locked?
    ensures var t := ProceedDo(s, less);
      && Stays(s, t)
      && if Writable(s, s.selected) then
           Wrote(s, t, s.open[s.selected], [TRANSCEIVE_APDU] + s.emu.apdu) && t.emu.Sent? && t.emu.apdu == s.emu.apdu
         else
           Still(s, t) && t.emu.Failed? && t.emu.apdu == s.emu.apdu
  {
  }

  lemma SentReads(s: State, less: (seq<byte>, seq<byte>) -> bool, i: nat)
    requires s.emu.Sent? && EmuCan(s, less, Proceed) && IsOpen(s, s.selected) && i == s.open[s.selected]
    ensures var (t, up) := (ProceedDo(s, less), s.conns[i].up);
      if up == [] then
        EndClosed(s, i) && Still(s, t) && Stays(s, t) && t.emu.Failed? && t.emu.apdu == s.emu.apdu
      else
        && ReadOne(s, t, i, up[0])
        && t.registry == s.registry && t.selected == s.selected && t.open == s.open && t.comm == s.comm
        && if ReadResponse(up[0]).None? then
             t.answers == s.answers && t.emu.Failed? && t.emu.apdu == s.emu.apdu
           else
             && t.emu.Idle? && |t.answers| == |s.answers| + 1
             && t.answers[|s.answers|].result == ReadResponse(up[0])
  {
  }

  lemma FailedCloses(s: State, less: (seq<byte>, seq<byte>) -> bool)
    requires s.emu.Failed? && (s.selected in s.open <==> s.selected in s.registry.Values)
    requires s.selected in s.open ==> IsOpen(s, s.selected)
    ensures var t := ProceedDo(s, less);
      && Still(s, t) && t.emu.Idle? && t.selected == NO_APP_SELECTED
      && t.registry == Without(s.registry, s.selected) && t.open.Keys == s.open.Keys - {s.selected}
      && |t.answers| == |s.answers| + 1 && t.answers[|s.answers|].result.None?
  {
    if s.selected !in s.registry.Values {
      assert forall aid | aid in s.registry :: s.registry[aid] in s.registry.Values;
      assert Without(s.registry, s.selected) == s.registry;
    }
  }

  // ----- The call on the wire ----------------------------------------------------------------

  /** Where a call is, from `d0` at its start. */
  ghost predicate CallAt(live: bool, d0: D.Daemon, d: D.Daemon, emu: Emu, fd: int, apdu: Capdu) {
    match emu
    case Wanted(ap, _) => ap == apdu && d == d0.(selected := fd)
    case Locked(ap, _) => ap == apdu && d == d0.(selected := fd)
    case Sent(ap, _, _, _) =>
      ap == apdu && fd in d0.open && HasWritten(d0.(selected := fd), d, fd, [TRANSCEIVE_APDU] + apdu)
    case Failed(ap, _) =>
      && ap == apdu && d == d0.(selected := fd, streams := d.streams)
      && D.Exchanged(live, d0.open, d0.streams, d.streams, fd, apdu, false, SW_INS_NOT_SUPPORTED)
    case _ => false
  }

  lemma NothingSent(live: bool, d0: D.Daemon, fd: int, apdu: Capdu)
    requires live ==> fd !in d0.open
    ensures D.Exchanged(live, d0.open, d0.streams, d0.streams, fd, apdu, false, SW_INS_NOT_SUPPORTED)
  {
  }

  lemma NothingRead(d0: D.Daemon, d: D.Daemon, fd: int, apdu: Capdu)
    requires HasWritten(d0.(selected := fd), d, fd, [TRANSCEIVE_APDU] + apdu)
    ensures D.Exchanged(false, d0.open, d0.streams, d.streams, fd, apdu, false, SW_INS_NOT_SUPPORTED)
  {
  }

  lemma ResponseRead(live: bool, d0: D.Daemon, d: D.Daemon, d': D.Daemon, fd: int, apdu: Capdu, m: Msg)
    requires fd in d0.open && HasWritten(d0.(selected := fd), d, fd, [TRANSCEIVE_APDU] + apdu) && HasRead(d, d', fd, m)
    ensures D.Exchanged(live, d0.open, d0.streams, d'.streams, fd, apdu, ReadResponse(m).Some?,
                        if ReadResponse(m).Some? then ReadResponse(m).value else SW_INS_NOT_SUPPORTED)
  {
  }

  /** What the class says about the call, given its result. */
  predicate IsTransceived(live: bool, d0: D.Daemon, d: D.Daemon, apdu: Capdu, result: Option<seq<byte>>) {
    D.Transceived(live, d0, d, apdu, result.Some?, if result.Some? then result.value else SW_INS_NOT_SUPPORTED)
  }

  lemma CallSucceeds(live: bool, d0: D.Daemon, d: D.Daemon, fd: int, apdu: Capdu, r: seq<byte>)
    requires !ParseSelect(apdu).Malformed? && fd == Route(d0.registry, d0.selected, apdu) != NO_APP_SELECTED
    requires fd in d0.open && d == d0.(selected := fd, streams := d.streams)
    requires D.Exchanged(live, d0.open, d0.streams, d.streams, fd, apdu, true, r)
    ensures IsTransceived(live, d0, d, apdu, Some(r))
  {
  }

  lemma CallFails(live: bool, d0: D.Daemon, d: D.Daemon, fd: int, apdu: Capdu)
    requires !ParseSelect(apdu).Malformed? && fd == Route(d0.registry, d0.selected, apdu) != NO_APP_SELECTED
    requires D.Exchanged(live, d0.open, d0.streams, d.streams, fd, apdu, false, SW_INS_NOT_SUPPORTED)
    requires d0.open == d0.registry.Values
    requires d == D.Daemon(Without(d0.registry, fd), NO_APP_SELECTED, d0.open - {fd}, d.streams)
    ensures IsTransceived(live, d0, d, apdu, None)
  {
    if fd !in d0.open {
      assert forall aid | aid in d0.registry :: d0.registry[aid] in d0.registry.Values;
      assert Without(d0.registry, fd) == d0.registry;
    }
  }

  // ----- The call in a run -------------------------------------------------------------------

  /** A part of a run that is one call of `transceive` on the application on `fd`, while clients do
      what they like and the communications thread, outside a handshake, does nothing. */
  ghost predicate IsCall(w: World, p: Part, apdu: Capdu, fd: int) {
    && IsRun(w, p.ss, p.steps) && IsPart(p) && p.fds == p.ss[p.a].open && p.a < p.b
    && p.steps[p.a] == Emulator(Ask(apdu)) && fd == Route(p.ss[p.a].registry, p.ss[p.a].selected, apdu)
    && HandFd(p.ss[p.a].comm) == {}
    && (forall k | p.a < k < p.b ::
          && !p.ss[k].emu.Idle?
          && (p.steps[k].Client? || p.steps[k].Join? || p.steps[k] == Emulator(Proceed)))
    && p.ss[p.b].emu.Idle?
  }

  /** The application's client, if there is one, has not closed its end before the end. */
  ghost predicate Live(p: Part, fd: int)
    requires IsPart(p)
  {
    fd in p.fds ==> Lives(p, fd)
  }

  /** Where the call is in state `k`. */
  ghost predicate CalledAt(p: Part, apdu: Capdu, fd: int, k: nat)
    requires IsPart(p) && p.a < k <= p.b
  {
    var s, s0 := p.ss[k], p.ss[p.a];
    if s.emu.Idle? then
      && |s.answers| == |s0.answers| + 1
      && IsTransceived(Live(p, fd), DaemonAt(p, p.a), DaemonAt(p, k), apdu, s.answers[|s0.answers|].result)
    else
      && CallAt(Live(p, fd), DaemonAt(p, p.a), DaemonAt(p, k), s.emu, fd, apdu)
      && s.open == p.fds && s.answers == s0.answers && s.comm == s0.comm
      && !ParseSelect(apdu).Malformed? && fd != NO_APP_SELECTED
  }

  lemma StillDaemonAt(p: Part, k: nat)
    requires IsPart(p) && p.a <= k < p.b && !p.steps[k].Client? && Still(p.ss[k], p.ss[k + 1])
    ensures DaemonAt(p, k + 1) ==
      D.Daemon(p.ss[k + 1].registry, p.ss[k + 1].selected, p.ss[k + 1].open.Keys, DaemonAt(p, k).streams)
  {
    StillStreams(p, k);
  }

  lemma AtOnce(live: bool, d0: D.Daemon, apdu: Capdu)
    requires ParseSelect(apdu).Malformed? || Route(d0.registry, d0.selected, apdu) == d0.selected == NO_APP_SELECTED
    ensures IsTransceived(live, d0, d0, apdu,
              Some(if ParseSelect(apdu).Malformed? then SW_NO_DIAGNOSIS else SW_INS_NOT_SUPPORTED))
  {
  }

  lemma AfterAsk(p: Part, apdu: Capdu, fd: int)
    requires IsPart(p) && p.a < p.b && p.steps[p.a] == Emulator(Ask(apdu)) && p.fds == p.ss[p.a].open
    requires Asks(p.ss[p.a], p.ss[p.a + 1], apdu, fd)
    requires fd == Route(p.ss[p.a].registry, p.ss[p.a].selected, apdu)
    requires fd == NO_APP_SELECTED ==> p.ss[p.a].selected == NO_APP_SELECTED
    ensures CalledAt(p, apdu, fd, p.a + 1)
  {
    StillDaemonAt(p, p.a);
    if ParseSelect(apdu).Malformed? || fd == NO_APP_SELECTED {
      AtOnce(Live(p, fd), DaemonAt(p, p.a), apdu);
      assert DaemonAt(p, p.a + 1) == DaemonAt(p, p.a);
    }
  }

  /** The next step of the call is taken in state `k`. */
  ghost predicate Proceeds(p: Part, less: (seq<byte>, seq<byte>) -> bool, apdu: Capdu, fd: int, k: nat) {
    && IsPart(p) && p.a < k < p.b && p.fds == p.ss[p.a].open && !p.ss[k].emu.Idle? && CalledAt(p, apdu, fd, k)
    && fd == Route(p.ss[p.a].registry, p.ss[p.a].selected, apdu)
    && p.steps[k] == Emulator(Proceed) && EmuCan(p.ss[k], less, Proceed) && p.ss[k + 1] == ProceedDo(p.ss[k], less)
    && (fd in p.fds ==> p.fds[fd] < |p.ss[k].conns| && (EndClosed(p.ss[k], p.fds[fd]) ==> !Lives(p, fd)))
    && p.ss[k].open.Keys == p.ss[k].registry.Values
  }

  lemma AtWanted(p: Part, less: (seq<byte>, seq<byte>) -> bool, apdu: Capdu, fd: int, k: nat)
    requires Proceeds(p, less, apdu, fd, k) && p.ss[k].emu.Wanted?
    ensures CalledAt(p, apdu, fd, k + 1)
  {
    WantedStill(p.ss[k], less);
    StillDaemonAt(p, k);
    assert DaemonAt(p, k + 1) == DaemonAt(p, k);
  }

  lemma AtLocked(p: Part, less: (seq<byte>, seq<byte>) -> bool, apdu: Capdu, fd: int, k: nat)
    requires Proceeds(p, less, apdu, fd, k) && p.ss[k].emu.Locked?
    ensures CalledAt(p, apdu, fd, k + 1)
  {
    LockedWrites(p.ss[k], less);
    if Writable(p.ss[k], fd) {
      WroteStreams(p, k, fd, [TRANSCEIVE_APDU] + apdu);
    } else {
      StillDaemonAt(p, k);
      assert DaemonAt(p, k + 1) == DaemonAt(p, k);
      NothingSent(Live(p, fd), DaemonAt(p, p.a), fd, apdu);
    }
  }

  lemma AtSent(p: Part, less: (seq<byte>, seq<byte>) -> bool, apdu: Capdu, fd: int, k: nat)
    requires Proceeds(p, less, apdu, fd, k) && p.ss[k].emu.Sent?
    ensures CalledAt(p, apdu, fd, k + 1)
  {
    var s, i, d0 := p.ss[k], p.fds[fd], DaemonAt(p, p.a);
    SentReads(s, less, i);
    if s.conns[i].up == [] {
      StillDaemonAt(p, k);
      NothingRead(d0, DaemonAt(p, k), fd, apdu);
    } else {
      var m := s.conns[i].up[0];
      ReadStreams(p, k, fd, m);
      ResponseRead(Live(p, fd), d0, DaemonAt(p, k), DaemonAt(p, k + 1), fd, apdu, m);
      if ReadResponse(m).Some? {
        CallSucceeds(Live(p, fd), d0, DaemonAt(p, k + 1), fd, apdu, ReadResponse(m).value);
      }
    }
  }

  lemma AtFailed(p: Part, less: (seq<byte>, seq<byte>) -> bool, apdu: Capdu, fd: int, k: nat)
    requires Proceeds(p, less, apdu, fd, k) && p.ss[k].emu.Failed?
    ensures CalledAt(p, apdu, fd, k + 1)
  {
    var s := p.ss[k];
    assert fd in s.open <==> fd in s.open.Keys;
    FailedCloses(s, less);
    StillDaemonAt(p, k);
    CallFails(Live(p, fd), DaemonAt(p, p.a), DaemonAt(p, k + 1), fd, apdu);
  }

  lemma AtProceed(p: Part, less: (seq<byte>, seq<byte>) -> bool, apdu: Capdu, fd: int, k: nat)
    requires Proceeds(p, less, apdu, fd, k)
    ensures CalledAt(p, apdu, fd, k + 1)
  {
    match p.ss[k].emu {
      case Wanted(_, _) => AtWanted(p, less, apdu, fd, k);
      case Locked(_, _) => AtLocked(p, less, apdu, fd, k);
      case Sent(_, _, _, _) => AtSent(p, less, apdu, fd, k);
      case Failed(_, _) => AtFailed(p, less, apdu, fd, k);
    }
  }

  lemma CallBegins(w: World, p: Part, apdu: Capdu, fd: int)
    requires IsCall(w, p, apdu, fd)
    ensures CalledAt(p, apdu, fd, p.a + 1)
  {
    var s := p.ss[p.a];
    RunKeeps(w, p.ss, p.steps, p.a);
    assert Can(w, s, p.steps[p.a]) && p.ss[p.a + 1] == Do(w, s, p.steps[p.a]);
    assert forall aid | aid in s.registry :: s.registry[aid] in s.registry.Values;
    AskAsks(s, apdu);
    AfterAsk(p, apdu, fd);
  }

  lemma CallStep(w: World, p: Part, apdu: Capdu, fd: int, k: nat)
    requires IsCall(w, p, apdu, fd) && p.a < k < p.b && CalledAt(p, apdu, fd, k)
    ensures CalledAt(p, apdu, fd, k + 1)
  {
    if p.steps[k] == Emulator(Proceed) {
      WillProceed(w, p, apdu, fd, k);
      AtProceed(p, w.less, apdu, fd, k);
    } else {
      assert p.ss[k + 1] == Do(w, p.ss[k], p.steps[k]);
      ClientsAside(w, p, k);
    }
  }

  lemma WillProceed(w: World, p: Part, apdu: Capdu, fd: int, k: nat)
    requires IsCall(w, p, apdu, fd) && p.a < k < p.b && CalledAt(p, apdu, fd, k) && p.steps[k] == Emulator(Proceed)
    ensures Proceeds(p, w.less, apdu, fd, k)
  {
    var s := p.ss[k];
    assert Can(w, s, p.steps[k]) && p.ss[k + 1] == Do(w, s, p.steps[k]);
    RunKeeps(w, p.ss, p.steps, k);
    if fd in p.fds && EndClosed(s, p.fds[fd]) {
      ClosedToTheEnd(w, p, fd, k);
    }
  }

  lemma {:induction false} CallGoes(w: World, p: Part, apdu: Capdu, fd: int, k: nat)
    requires IsCall(w, p, apdu, fd) && p.a < k <= p.b
    ensures CalledAt(p, apdu, fd, k)
  {
    if k == p.a + 1 {
      CallBegins(w, p, apdu, fd);
    } else {
      CallGoes(w, p, apdu, fd, k - 1);
      CallStep(w, p, apdu, fd, k - 1);
    }
  }

  /** The calls of the step machine are those of the daemon's class: in every part of every run
      that is one call of `transceive`, with any steps of clients in between, it does to the byte
      streams, the registry, the selection and the descriptors what `Transceive` does, with the
      same result; reliably so if the application's client does not close its end. */
  lemma CallOnTheWire(w: World, p: Part, apdu: Capdu, fd: int)
    requires IsCall(w, p, apdu, fd)
    ensures var n := |p.ss[p.a].answers|;
      && |p.ss[p.b].answers| == n + 1
      && IsTransceived(Live(p, fd), DaemonAt(p, p.a), DaemonAt(p, p.b), apdu, p.ss[p.b].answers[n].result)
  {
    CallGoes(w, p, apdu, fd, p.b);
  }
}

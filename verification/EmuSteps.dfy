/** Steps of the emulator thread keep the invariant. */
module EmuSteps {
  import opened Bytes
  import opened Protocol
  import opened System
  import opened Invariant
  import opened ClientSteps

  // ----- One connection ----------------------------------------------------------------------

  function Popped(c: Conn): Conn {
    if c.up == [] then c else c.(up := c.up[1..])
  }

  lemma QuietTakesCommand(c: Conn, cmd: Msg, reply: Msg)
    requires Quiet(c) && !c.phase.Closed?
    ensures Outstanding(c.(down := c.down + [cmd]), cmd, c.hist, reply)
    ensures Gone(c) ==> Gone(c.(down := c.down + [cmd]))
  {
  }

  /** The daemon reads from a connection that owes it a response. */
  lemma OutstandingPops(c: Conn, cmd: Msg, before: seq<Input>, reply: Msg)
    requires Outstanding(c, cmd, before, reply) && (c.up != [] || c.phase.Closed?)
    ensures Quiet(Popped(c)) && (Gone(c) ==> Gone(Popped(c)))
    ensures c.up != [] ==> c.up[0] == reply || (c.up[0] == [DISCONNECT] && HasLeft(c))
    ensures c.up == [] ==> HasLeft(c)
  {
  }

  // ----- Moves that touch no connection ------------------------------------------------------

  function Judged(c: Conn, standing: Standing): Conn {
    if c.standing.Suspect? then c.(standing := standing) else c
  }

  /** Suspect connections get another standing, and nothing else about connections changes. */
  ghost predicate Judges(s: State, t: State, standing: Standing) {
    && t == s.(conns := t.conns, selected := t.selected, reused := t.reused, emu := t.emu, answers := t.answers)
    && |t.conns| == |s.conns|
    && forall k | 0 <= k < |s.conns| :: t.conns[k] == Judged(s.conns[k], standing)
  }

  lemma JudgeIs(s: State, standing: Standing)
    requires Descriptors(s) && Suspects(s)
    ensures Judges(s, Judge(s, standing), standing)
  {
  }

  lemma JudgedShape(w: World, s: State, t: State, standing: Standing)
    requires Descriptors(s) && Answers(w, s) && Judges(s, t, standing) && t.answers == s.answers
    ensures Descriptors(t) && Answers(w, t)
  {
    AnswersFrame(w, s, t);
  }

  /** The selection is given up, or made anew for a registered connection. */
  lemma ClearedConnections(w: World, s: State, t: State)
    requires Connections(w, s) && Registry(s) && Judges(s, t, Regular)
    requires !s.emu.Sent? && !s.emu.PowerSent? && !t.emu.Sent? && !t.emu.PowerSent? && !t.emu.Failed?
    requires t.selected == NO_APP_SELECTED || t.selected in s.registry.Values
    ensures Connections(w, t)
  {
    forall k | 0 <= k < |t.conns| && Clean(t.conns[k])
      ensures ConnOk(w, t.registry, Seen(t.selected, t.conns[k]), t.comm, t.emu, k, t.conns[k])
    {
      assert ConnOk(w, s.registry, Seen(s.selected, s.conns[k]), s.comm, s.emu, k, s.conns[k]);
      ClearedOk(w, s.registry, Seen(s.selected, s.conns[k]), t.selected, s.comm, s.emu, t.emu, k,
                s.conns[k], t.conns[k]);
    }
  }

  lemma StandingApart(comm: Comm, c: Conn, standing: Standing)
    ensures var d := c.(standing := standing);
      && (Waiting(c) <==> Waiting(d)) && (ShutOk(c) <==> ShutOk(d)) && (Quiet(c) <==> Quiet(d))
      && (Gone(c) <==> Gone(d)) && (HandshakeOk(comm, c) <==> HandshakeOk(comm, d))
  {
  }

  lemma ClearedRegistered(w: World, registry: map<seq<byte>, int>, selected: int, selected': int,
                          comm: Comm, emu: Emu, emu': Emu, i: nat, c: Conn, d: Conn)
    requires RegisteredOk(w, registry, selected, comm, emu, i, c) && d == Judged(c, Regular)
    requires !emu.Sent? && !emu.PowerSent? && !emu'.Sent? && !emu'.PowerSent? && !emu'.Failed?
    ensures RegisteredOk(w, registry, selected', comm, emu', i, d)
  {
    StandingApart(comm, c, Regular);
  }

  lemma ClearedOk(w: World, registry: map<seq<byte>, int>, selected: int, selected': int,
                  comm: Comm, emu: Emu, emu': Emu, i: nat, c: Conn, d: Conn)
    requires ConnOk(w, registry, selected, comm, emu, i, c) && d == Judged(c, Regular)
    requires !emu.Sent? && !emu.PowerSent? && !emu'.Sent? && !emu'.PowerSent? && !emu'.Failed?
    requires registry.Values !! HandFd(comm) && (selected' == NO_APP_SELECTED || selected' in registry.Values)
    ensures ConnOk(w, registry, selected', comm, emu', i, d)
  {
    if c.shut || c.fd == -1 || (c.fd in HandFd(comm) && !comm.Insert?) {
      StandingApart(comm, c, Regular);
    } else {
      ClearedRegistered(w, registry, selected, selected', comm, emu, emu', i, c, d);
    }
  }

  lemma PowerEventKeeps(w: World, s: State, kind: byte)
    requires Inv(w, s) && s.emu.Idle? && IsPower(kind)
    ensures Inv(w, Judge(s, Regular).(selected := NO_APP_SELECTED, reused := false, emu := PowerWanted(kind)))
  {
    var t := Judge(s, Regular).(selected := NO_APP_SELECTED, reused := false, emu := PowerWanted(kind));
    JudgeIs(s, Regular);
    JudgedShape(w, s, t, Regular);
    ClearedConnections(w, s, t);
  }

  /** A connection that is sent a command by a selection made for another is misled. */
  lemma MisleadKeeps(w: World, s: State)
    requires Inv(w, s)
    ensures Inv(w, Judge(s, Misled)) && forall k | 0 <= k < |s.conns| :: !Judge(s, Misled).conns[k].standing.Suspect?
  {
    var t := Judge(s, Misled);
    JudgeIs(s, Misled);
    JudgedShape(w, s, t, Misled);
    MisledConnections(w, s, t);
    MisledExchange(s, t);
  }

  lemma MisledConnections(w: World, s: State, t: State)
    requires Connections(w, s) && Judges(s, t, Misled) && t.selected == s.selected && t.emu == s.emu
    ensures Connections(w, t)
  {
  }

  lemma MisledExchange(s: State, t: State)
    requires Exchange(s) && Judges(s, t, Misled) && t.selected == s.selected && t.emu == s.emu && t.reused == s.reused
    ensures Exchange(t)
  {
  }

  /** The emulator thread moves between program points at which it waits for nobody. */
  lemma EmuMoves(w: World, s: State, emu: Emu)
    requires Inv(w, s) && Exchange(s.(emu := emu)) && Selected(s.(emu := emu))
    requires !s.emu.Sent? && !s.emu.PowerSent? && !emu.Sent? && !emu.PowerSent?
    requires emu.Failed? ==>
      forall i | 0 <= i < |s.conns| && Clean(s.conns[i]) && s.conns[i].fd == s.selected :: HasLeft(s.conns[i])
    ensures Inv(w, s.(emu := emu))
  {
    var t := s.(emu := emu);
    AnswersFrame(w, s, t);
    assert Connections(w, t);
  }

  /** Routing in the daemon is selection on the abstract card. */
  lemma RouteIsSelect(w: World, s: State, apdu: seq<byte>)
    requires Descriptors(s) && Registry(s)
    ensures SelectOn(Abs(s), apdu).sel == Abs(s.(selected := Route(s.registry, s.selected, apdu))).sel
    ensures SelectOn(Abs(s), apdu).hist == Abs(s).hist
    ensures |Abs(s).hist| == |s.conns| && forall i | 0 <= i < |s.conns| :: Abs(s).hist[i] == s.conns[i].hist
  {
    assert forall aid | aid in s.registry :: s.registry[aid] in s.registry.Values;
  }

  /** A call is completed at once: malformed SELECT, or nothing selected. */
  lemma ReplyKeeps(w: World, s: State, a: Answer)
    requires Inv(w, s) && s.emu.Idle? && Answered(w, s, a)
    ensures Inv(w, s.(answers := s.answers + [a]))
  {
    var t := s.(answers := s.answers + [a]);
    forall k | 0 <= k < |t.answers|
      ensures Answered(w, t, t.answers[k])
    {
      assert k < |s.answers| ==> Answered(w, s, s.answers[k]);
    }
    assert Connections(w, t);
  }

  /** A call selects the application on `fd`. */
  lemma ChosenKeeps(w: World, s: State, apdu: Capdu, fd: int)
    requires Inv(w, s) && s.emu.Idle? && fd == Route(s.registry, s.selected, apdu) && Chooses(s.registry, apdu)
    ensures Inv(w, Selects(s, apdu, fd).(emu := Wanted(apdu, Abs(s))))
  {
    var t := Selects(s, apdu, fd).(emu := Wanted(apdu, Abs(s)));
    RouteIsSelect(w, s, apdu);
    assert fd in s.registry.Values && fd in s.open.Keys;
    JudgeIs(s, Regular);
    JudgedShape(w, s, t, Regular);
    ClearedConnections(w, s, t);
    assert Exchange(t);
  }

  /** A call goes on with the application on `fd`. */
  lemma WantKeeps(w: World, s: State, apdu: Capdu, fd: int)
    requires Inv(w, s) && s.emu.Idle? && fd == s.selected != NO_APP_SELECTED
    requires !ParseSelect(apdu).Malformed? && fd == Route(s.registry, s.selected, apdu) && !Chooses(s.registry, apdu)
    ensures Inv(w, Selects(s, apdu, fd).(emu := Wanted(apdu, Abs(s))))
  {
    var t := Selects(s, apdu, fd).(emu := Wanted(apdu, Abs(s)));
    RouteIsSelect(w, s, apdu);
    AnswersFrame(w, s, t);
    assert Connections(w, t);
    assert Selected(t);
    assert Exchange(t);
  }

  lemma AskKeeps(w: World, s: State, apdu: Capdu)
    requires Inv(w, s) && s.emu.Idle?
    ensures Inv(w, AskDo(s, apdu))
  {
    var fd := Route(s.registry, s.selected, apdu);
    RouteIsSelect(w, s, apdu);
    if ParseSelect(apdu).Malformed? {
      ReplyKeeps(w, s, Answer(apdu, Abs(s), Some(SW_NO_DIAGNOSIS), s.reused));
    } else if fd == NO_APP_SELECTED {
      ReplyKeeps(w, s, Answer(apdu, Abs(s), Some(SW_INS_NOT_SUPPORTED), s.reused));
    } else if Chooses(s.registry, apdu) {
      ChosenKeeps(w, s, apdu, fd);
    } else {
      WantKeeps(w, s, apdu, fd);
    }
  }

  // ----- Sending -----------------------------------------------------------------------------

  lemma VisitConnections(w: World, s: State, aid: seq<byte>)
    requires Descriptors(s) && Selected(s) && Registry(s) && Connections(w, s)
    requires s.emu.Power? && aid in s.registry && Writable(s, s.registry[aid])
    ensures Connections(w, Push(s, s.registry[aid], [s.emu.kind]).(
                             emu := PowerSent(s.emu.kind, Some(aid), s.registry[aid])))
  {
    var fd := s.registry[aid];
    var t := Push(s, fd, [s.emu.kind]).(emu := PowerSent(s.emu.kind, Some(aid), fd));
    var i := s.open[fd];
    assert fd in s.registry.Values;
    forall k | 0 <= k < |t.conns| && Clean(t.conns[k])
      ensures ConnOk(w, t.registry, Seen(t.selected, t.conns[k]), t.comm, t.emu, k, t.conns[k])
    {
      assert ConnOk(w, s.registry, Seen(s.selected, s.conns[k]), s.comm, s.emu, k, s.conns[k]);
      if k == i {
        QuietTakesCommand(s.conns[i], [s.emu.kind], [EDNA_OK]);
      }
    }
  }

  lemma VisitKeeps(w: World, s: State, aid: seq<byte>)
    requires Inv(w, s) && s.emu.Power? && aid in s.registry && Writable(s, s.registry[aid])
    ensures Inv(w, Push(s, s.registry[aid], [s.emu.kind]).(emu := PowerSent(s.emu.kind, Some(aid), s.registry[aid])))
  {
    var fd := s.registry[aid];
    ShapeFrame(w, s, Push(s, fd, [s.emu.kind]).(emu := PowerSent(s.emu.kind, Some(aid), fd)), s.open[fd]);
    VisitConnections(w, s, aid);
  }

  function SentTo(s: State, i: nat, apdu: Capdu, card: Card): State
    requires i < |s.conns|
  {
    Push(s, s.selected, [TRANSCEIVE_APDU] + apdu).(emu := Sent(apdu, card, i, s.conns[i].hist))
  }

  lemma SendConnections(w: World, s: State, i: nat, apdu: Capdu, card: Card)
    requires Descriptors(s) && Connections(w, s)
    requires s.emu == Locked(apdu, card) && Writable(s, s.selected) && i == s.open[s.selected]
    requires forall k | 0 <= k < |s.conns| :: !s.conns[k].standing.Suspect?
    ensures Connections(w, SentTo(s, i, apdu, card))
  {
    var t := SentTo(s, i, apdu, card);
    forall k | 0 <= k < |t.conns| && Clean(t.conns[k])
      ensures ConnOk(w, t.registry, Seen(t.selected, t.conns[k]), t.comm, t.emu, k, t.conns[k])
    {
      assert ConnOk(w, s.registry, Seen(s.selected, s.conns[k]), s.comm, s.emu, k, s.conns[k]);
      if k == i {
        QuietTakesCommand(s.conns[i], [TRANSCEIVE_APDU] + apdu,
                          [EDNA_OK] + w.apps(i)(s.conns[i].hist + [Received(apdu)]));
      }
    }
  }

  lemma SendKeeps(w: World, s: State, i: nat, apdu: Capdu, card: Card)
    requires Inv(w, s) && s.emu == Locked(apdu, card) && Writable(s, s.selected) && i == s.open[s.selected]
    requires forall k | 0 <= k < |s.conns| :: !s.conns[k].standing.Suspect?
    ensures Inv(w, SentTo(s, i, apdu, card))
  {
    var t := SentTo(s, i, apdu, card);
    ShapeFrame(w, s, t, i);
    SendConnections(w, s, i, apdu, card);
    assert Exchange(t);
  }

  lemma NoSendKeeps(w: World, s: State, apdu: Capdu, card: Card)
    requires Inv(w, s) && s.emu == Locked(apdu, card) && !Writable(s, s.selected)
    ensures Inv(w, s.(emu := Failed(apdu, card)))
  {
    EmuMoves(w, s, Failed(apdu, card));
  }

  // ----- Receiving ---------------------------------------------------------------------------

  /** What a trusted connection looks like once the awaited read has returned. */
  lemma AwaitedPops(w: World, s: State, fd: int)
    requires Descriptors(s) && Selected(s) && Connections(w, s) && IsOpen(s, fd) && Readable(s, fd)
    requires Targets(s.emu, s.selected, fd) && Clean(ConnOf(s, fd))
    ensures var c := ConnOf(s, fd);
      && !c.refused && SoundAid(c.aid) && Bound(s.registry, s.comm, c)
      && (fd in HandFd(s.comm) ==> s.comm.Insert? && fd != s.selected)
      && Quiet(Popped(c)) && (Gone(c) ==> Gone(Popped(c)))
      && (s.comm.Serving? && fd in s.comm.ready ==> Gone(c))
      && (s.comm.Dropping? && fd == s.comm.fd ==> Gone(c))
      && (c.up == [] ==> HasLeft(c))
      && (s.emu.Sent? ==>
            && s.emu.conn == s.open[fd]
            && (c.up == [] || (c.up[0] == [DISCONNECT] && HasLeft(c))
                || c.up[0] == [EDNA_OK] + w.apps(s.emu.conn)(s.emu.before + [Received(s.emu.apdu)])))
  {
    var i := s.open[fd];
    var c := s.conns[i];
    assert Seen(s.selected, c) == s.selected;
    assert ConnOk(w, s.registry, s.selected, s.comm, s.emu, i, c);
    match s.emu {
      case PowerSent(kind, _, _) => OutstandingPops(c, [kind], c.hist, [EDNA_OK]);
      case Sent(apdu, _, conn, before) =>
        OutstandingPops(c, [TRANSCEIVE_APDU] + apdu, before, [EDNA_OK] + w.apps(conn)(before + [Received(apdu)]));
    }
  }

  /** The awaited read has returned and the emulator thread waits for nobody any more. */
  ghost predicate Resumes(s: State, fd: int, emu: Emu) {
    && Readable(s, fd)
    && ((s.emu.PowerSent? && fd == s.emu.fd) || (s.emu.Sent? && fd == s.selected))
    && !emu.PowerSent? && !emu.Sent?
    && (emu.Failed? ==> s.emu.Sent? && (IsOpen(s, fd) && Clean(ConnOf(s, fd)) ==> HasLeft(ConnOf(s, fd))))
  }

  lemma PoppedOk(w: World, s: State, fd: int, emu: Emu)
    requires Descriptors(s) && Selected(s) && Connections(w, s) && Resumes(s, fd, emu)
    requires IsOpen(s, fd) && Clean(ConnOf(s, fd))
    ensures ConnOk(w, s.registry, Seen(s.selected, ConnOf(s, fd)), s.comm, emu, s.open[fd], Popped(ConnOf(s, fd)))
  {
    AwaitedPops(w, s, fd);
  }

  lemma ReceiveConnections(w: World, s: State, t: State, fd: int)
    requires Descriptors(s) && Selected(s) && Connections(w, s) && Resumes(s, fd, t.emu)
    requires t == s.(conns := t.conns, emu := t.emu) && |t.conns| == |s.conns|
    requires forall k | 0 <= k < |s.conns| ::
      t.conns[k] == if s.conns[k].fd == fd >= 0 then Popped(s.conns[k]) else s.conns[k]
    ensures Connections(w, t)
  {
    if IsOpen(s, fd) && Clean(ConnOf(s, fd)) {
      PoppedOk(w, s, fd, t.emu);
    }
    forall k | 0 <= k < |t.conns| && Clean(t.conns[k])
      ensures ConnOk(w, t.registry, Seen(t.selected, t.conns[k]), t.comm, t.emu, k, t.conns[k])
    {
      assert ConnOk(w, s.registry, Seen(s.selected, s.conns[k]), s.comm, s.emu, k, s.conns[k]);
    }
  }

  lemma ConsumePops(s: State, t: State, fd: int, emu: Emu)
    requires Descriptors(s) && t == Consume(s, fd).(emu := emu)
    ensures t == s.(conns := t.conns, emu := emu) && |t.conns| == |s.conns|
    ensures forall k | 0 <= k < |s.conns| ::
      t.conns[k] == if s.conns[k].fd == fd >= 0 then Popped(s.conns[k]) else s.conns[k]
  {
  }

  /** Nothing but what connections carry has changed. */
  ghost predicate SameShape(s: State, t: State) {
    && t == s.(conns := t.conns, emu := t.emu) && |t.conns| == |s.conns|
    && forall k | 0 <= k < |s.conns| :: t.conns[k] == s.conns[k].(up := t.conns[k].up)
  }

  lemma ResumeDescriptors(s: State, t: State)
    requires Descriptors(s) && SameShape(s, t)
    ensures Descriptors(t)
  {
  }

  lemma ResumeAnswers(w: World, s: State, t: State)
    requires Answers(w, s) && SameShape(s, t)
    ensures Answers(w, t)
  {
    AnswersFrame(w, s, t);
  }

  lemma ResumeKeeps(w: World, s: State, fd: int, emu: Emu)
    requires Inv(w, s) && Resumes(s, fd, emu)
    requires Exchange(Consume(s, fd).(emu := emu)) && Selected(Consume(s, fd).(emu := emu))
    ensures Inv(w, Consume(s, fd).(emu := emu))
  {
    var t := Consume(s, fd).(emu := emu);
    ConsumePops(s, t, fd, emu);
    ResumeDescriptors(s, t);
    ResumeAnswers(w, s, t);
    ReceiveConnections(w, s, t, fd);
  }

  /** An R-APDU is read exactly when it is the client's answer; otherwise the client has left. */
  lemma ResponseIsAnswer(w: World, s: State)
    requires Descriptors(s) && Selected(s) && Connections(w, s) && Readable(s, s.selected) && s.emu.Sent?
    requires IsOpen(s, s.selected) && Clean(ConnOf(s, s.selected))
    ensures s.emu.conn == s.open[s.selected]
    ensures match ReadBy(s, s.selected)
            case Some(r) => r == w.apps(s.emu.conn)(s.emu.before + [Received(s.emu.apdu)])
            case None => HasLeft(ConnOf(s, s.selected))
  {
    AwaitedPops(w, s, s.selected);
    var r := w.apps(s.emu.conn)(s.emu.before + [Received(s.emu.apdu)]);
    SubstrIsTail([EDNA_OK] + r, 1);
    assert ([EDNA_OK] + r)[1..] == r;
  }

  /** The answer of a completed exchange, judged against the card at the call. */
  lemma ExchangeAnswered(w: World, s: State)
    requires Descriptors(s) && Selected(s) && Connections(w, s) && Exchange(s) && Readable(s, s.selected)
    requires s.emu.Sent? && s.selected >= 0
    ensures ReadBy(s, s.selected).Some? ==>
      Answered(w, s, Answer(s.emu.apdu, s.emu.card, ReadBy(s, s.selected), s.reused))
    ensures ReadBy(s, s.selected).None? && SelectOn(s.emu.card, s.emu.apdu).sel.App? ==>
      var c := s.conns[SelectOn(s.emu.card, s.emu.apdu).sel.conn];
      Clean(c) ==> HasLeft(c)
  {
    if IsOpen(s, s.selected) && Clean(ConnOf(s, s.selected)) {
      ResponseIsAnswer(w, s);
    }
    var sel := SelectOn(s.emu.card, s.emu.apdu).sel;
    assert sel.App? && s.conns[sel.conn].fd == s.selected ==> s.open[s.selected] == sel.conn;
  }

  lemma PowerReadKeeps(w: World, s: State)
    requires Inv(w, s) && s.emu.PowerSent? && Readable(s, s.emu.fd)
    ensures Inv(w, Consume(s, s.emu.fd).(emu := Power(s.emu.kind, s.emu.last)))
  {
    ResumeKeeps(w, s, s.emu.fd, Power(s.emu.kind, s.emu.last));
  }

  lemma ReceiveKeeps(w: World, s: State, a: Answer)
    requires Inv(w, s) && s.emu.Sent? && Readable(s, s.selected) && ReadBy(s, s.selected).Some?
    requires a == Answer(s.emu.apdu, s.emu.card, ReadBy(s, s.selected), s.reused)
    ensures Inv(w, Consume(s, s.selected).(emu := Idle, answers := s.answers + [a]))
  {
    ExchangeAnswered(w, s);
    ResumeKeeps(w, s, s.selected, Idle);
    ReplyKeeps(w, Consume(s, s.selected).(emu := Idle), a);
  }

  lemma NoReceiveKeeps(w: World, s: State, emu: Emu)
    requires Inv(w, s) && s.emu.Sent? && Readable(s, s.selected) && ReadBy(s, s.selected).None?
    requires emu == Failed(s.emu.apdu, s.emu.card)
    ensures Inv(w, Consume(s, s.selected).(emu := emu))
  {
    if IsOpen(s, s.selected) && Clean(ConnOf(s, s.selected)) {
      ResponseIsAnswer(w, s);
    }
    ExchangeAnswered(w, s);
    ResumeKeeps(w, s, s.selected, emu);
  }

  // ----- A failed exchange -------------------------------------------------------------------

  /** Nothing is selected any more; the connection on `fd`, if it was registered, is closed. */
  ghost predicate Evicts(s: State, t: State) {
    t == Judge(Unregister(s, s.selected), Regular).(selected := NO_APP_SELECTED, reused := false, emu := Idle)
  }

  lemma EvictShape(w: World, s: State, t: State)
    requires Descriptors(s) && Answers(w, s) && Evicts(s, t)
    requires s.selected in s.registry.Values ==> IsOpen(s, s.selected)
    ensures Descriptors(t) && Answers(w, t)
  {
    AnswersFrame(w, s, t);
  }

  lemma EvictRegistry(s: State, t: State)
    requires Descriptors(s) && Registry(s) && Evicts(s, t)
    ensures Registry(t)
  {
    WithoutValues(s.registry, s.selected);
    if s.selected in s.registry.Values {
      assert s.selected in s.open.Keys;
    }
  }

  /** The connection was registered: its client had left, unless the selection was for another. */
  lemma EvictConnections(w: World, s: State, t: State)
    requires Descriptors(s) && Connections(w, s) && Evicts(s, t) && s.emu.Failed?
    requires s.selected in s.registry.Values && IsOpen(s, s.selected) && s.registry.Values !! HandFd(s.comm)
    ensures Connections(w, t)
  {
    var i := s.open[s.selected];
    assert t.conns == s.conns[i := Shut(s.emu, s.conns[i])];
    forall k | 0 <= k < |t.conns| && Clean(t.conns[k])
      ensures ConnOk(w, t.registry, Seen(t.selected, t.conns[k]), t.comm, t.emu, k, t.conns[k])
    {
      assert ConnOk(w, s.registry, Seen(s.selected, s.conns[k]), s.comm, s.emu, k, s.conns[k]);
    }
  }

  lemma EvictKeeps(w: World, s: State, t: State)
    requires Inv(w, s) && s.emu.Failed? && Evicts(s, t) && s.selected in s.registry.Values
    ensures Inv(w, t)
  {
    assert s.selected in s.open.Keys;
    EvictShape(w, s, t);
    EvictRegistry(s, t);
    EvictConnections(w, s, t);
  }

  lemma ForgetKeeps(w: World, s: State, t: State)
    requires Inv(w, s) && s.emu.Failed? && Evicts(s, t) && s.selected !in s.registry.Values
    ensures Inv(w, t)
  {
    JudgeIs(s, Regular);
    JudgedShape(w, s, t, Regular);
    ClearedConnections(w, s, t);
  }

  /** After a failed exchange the connection is unregistered and nothing is selected. */
  lemma FailedKeeps(w: World, s: State, a: Answer)
    requires Inv(w, s) && s.emu.Failed? && a == Answer(s.emu.apdu, s.emu.card, None, s.reused)
    ensures Inv(w, Judge(Unregister(s, s.selected), Regular).(
                     selected := NO_APP_SELECTED, reused := false, emu := Idle, answers := s.answers + [a]))
  {
    var t := Judge(Unregister(s, s.selected), Regular).(selected := NO_APP_SELECTED, reused := false, emu := Idle);
    if s.selected in s.registry.Values {
      EvictKeeps(w, s, t);
    } else {
      ForgetKeeps(w, s, t);
    }
    ReplyKeeps(w, t, a);
  }
}

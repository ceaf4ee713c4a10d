/** The system refines the abstract card: each step is one operation of the card, or none. */
module Refinement {
  import opened Bytes
  import opened Protocol
  import opened System
  import opened Invariant
  import opened Runs
  import opened Frames

  /** What can happen to the abstract card. */
  datatype CardOp =
    | Nothing
    | Attach                                // a client connects, with nothing processed yet
    | Install(aid: seq<byte>, conn: nat)    // its AID becomes selectable
    | Remove(conn: nat)                     // and is gone again
    | Choose(apdu: seq<byte>)               // SELECT, as routed
    | Deselect                              // power event
    | Evict                                 // failed exchange: deselect and remove what was selected
    | Process(conn: nat, input: Input)      // an application is given an input

  function Apply(card: Card, op: CardOp): Card {
    match op
    case Nothing => card
    case Attach => card.(hist := card.hist + [[]])
    case Install(aid, conn) => card.(apps := card.apps[aid := conn])
    case Remove(i) =>
      card.(apps := map aid | aid in card.apps && card.apps[aid] != i :: card.apps[aid],
            sel := if card.sel == App(i) then Stale else card.sel)
    case Choose(apdu) => SelectOn(card, apdu)
    case Deselect => card.(sel := Nobody)
    case Evict =>
      card.(apps := map aid | aid in card.apps && App(card.apps[aid]) != card.sel :: card.apps[aid], sel := Nobody)
    case Process(i, input) =>
      if i < |card.hist| then card.(hist := card.hist[i := card.hist[i] + [input]]) else card
  }

  /** The operation of the card that a step of the system performs. */
  function OpOf(s: State, step: Step): CardOp {
    match step
    case Join(_, _) => Attach
    case Client(i, Write) =>
      if i < |s.conns| && s.conns[i].phase.Busy? && InputOf(s.conns[i].phase.cmd).Some?
      then Process(i, InputOf(s.conns[i].phase.cmd).value)
      else Nothing
    case Client(_, _) => Nothing
    case Communication(Advance) =>
      (match s.comm
       case Insert(fd, aid) => if fd in s.open then Install(aid, s.open[fd]) else Nothing
       case Dropping(fd) => if fd in s.registry.Values && fd in s.open then Remove(s.open[fd]) else Nothing
       case _ => Nothing)
    case Communication(_) => Nothing
    case Emulator(PowerEvent(_)) => Deselect
    case Emulator(Ask(apdu)) => Choose(apdu)
    case Emulator(Proceed) => if s.emu.Failed? then Evict else Nothing
    case Emulator(_) => Nothing
  }

  ghost predicate SameEntry(s: State, t: State, fd: int) {
    (fd in s.open <==> fd in t.open) && (fd in s.open ==> t.open[fd] == s.open[fd])
  }

  /** The card cannot tell `t` from `s`. */
  ghost predicate Alike(s: State, t: State) {
    && t.registry == s.registry && t.selected == s.selected && |t.conns| == |s.conns|
    && SameEntry(s, t, s.selected)
    && (forall aid | aid in s.registry :: SameEntry(s, t, s.registry[aid]))
    && (forall i | 0 <= i < |s.conns| :: t.conns[i].hist == s.conns[i].hist)
  }

  lemma AlikeAbs(s: State, t: State)
    requires Alike(s, t)
    ensures Abs(t) == Abs(s)
  {
    assert Abs(t).apps == Abs(s).apps;
    assert Abs(t).hist == Abs(s).hist;
  }

  lemma ReadsAlike(s: State, fd: int)
    ensures Alike(s, Consume(s, fd))
    ensures fd !in s.registry.Values && fd != s.selected ==> Alike(s, Reject(Consume(s, fd), fd))
  {
  }

  lemma WritesAlike(s: State, fd: int, m: Msg)
    ensures Alike(s, Push(s, fd, m))
    ensures fd !in s.registry.Values && fd != s.selected ==> Alike(s, Reject(s, fd))
  {
  }

  lemma RefusalAlike(s: State, fd: int)
    requires fd !in s.registry.Values && fd != s.selected
    ensures Alike(s, Reject(Push(s, fd, [AID_EXISTS]), fd))
  {
    WritesAlike(s, fd, [AID_EXISTS]);
    WritesAlike(Push(s, fd, [AID_EXISTS]), fd, [AID_EXISTS]);
    AlikeTrans(s, Push(s, fd, [AID_EXISTS]), Reject(Push(s, fd, [AID_EXISTS]), fd));
  }

  lemma AlikeTrans(s: State, t: State, u: State)
    requires Alike(s, t) && Alike(t, u)
    ensures Alike(s, u)
  {
  }

  /** The card does not see what a connection is suspected of. */
  lemma JudgeAlike(s: State, standing: Standing)
    ensures Alike(s, Judge(s, standing))
  {
  }

  lemma JudgeAside(s: State, standing: Standing, selected: int)
    ensures Alike(s.(selected := selected), Judge(s, standing).(selected := selected))
  {
  }

  lemma JoinRefines(w: World, s: State, lib: bool, aid: seq<byte>)
    requires Inv(w, s)
    ensures Abs(Do(w, s, Join(lib, aid))) == Apply(Abs(s), Attach)
  {
    assert Abs(Do(w, s, Join(lib, aid))).apps == Abs(s).apps;
    assert Abs(Do(w, s, Join(lib, aid))).hist == Abs(s).hist + [[]];
  }

  lemma ClientRefines(w: World, s: State, i: nat, act: ClientAct)
    requires Inv(w, s) && Can(w, s, Client(i, act))
    ensures Abs(SetConn(s, i, ClientDo(w.apps(i), s.conns[i], act))) == Apply(Abs(s), OpOf(s, Client(i, act)))
  {
    var t := SetConn(s, i, ClientDo(w.apps(i), s.conns[i], act));
    assert Abs(t).apps == Abs(s).apps;
    assert Abs(t).hist == Apply(Abs(s), OpOf(s, Client(i, act))).hist;
  }

  lemma InstallRefines(w: World, s: State, fd: int, aid: seq<byte>)
    requires Inv(w, s) && s.comm == Insert(fd, aid)
    ensures Abs(s.(registry := s.registry[aid := fd], comm := Selecting))
         == Apply(Abs(s), OpOf(s, Communication(Advance)))
  {
    assert fd in s.open.Keys;
    InstallIs(s, fd, aid);
  }

  lemma InstallIs(s: State, fd: int, aid: seq<byte>)
    requires fd in s.open
    ensures Abs(s.(registry := s.registry[aid := fd], comm := Selecting)) == Apply(Abs(s), Install(aid, s.open[fd]))
  {
    var t := s.(registry := s.registry[aid := fd], comm := Selecting);
    assert Abs(t).apps == Abs(s).apps[aid := s.open[fd]];
    assert Abs(t).hist == Abs(s).hist;
  }

  /** Every registered descriptor is open, on a connection of its own. */
  ghost predicate Linked(s: State) {
    && (forall aid | aid in s.registry :: IsOpen(s, s.registry[aid]))
    && (forall a, b | a in s.open && b in s.open && s.open[a] == s.open[b] :: a == b)
  }

  lemma InvLinked(w: World, s: State)
    requires Inv(w, s)
    ensures Linked(s)
  {
    forall aid | aid in s.registry
      ensures IsOpen(s, s.registry[aid])
    {
      assert s.registry[aid] in s.registry.Values;
      assert s.registry[aid] in s.open.Keys;
    }
  }

  lemma RemoveRefines(s: State, fd: int)
    requires Linked(s) && fd in s.registry.Values && IsOpen(s, fd)
    ensures Abs(Unregister(s, fd)) == Apply(Abs(s), Remove(s.open[fd]))
  {
    var t := Unregister(s, fd);
    assert Abs(t).apps == Apply(Abs(s), Remove(s.open[fd])).apps;
    assert Abs(t).hist == Abs(s).hist;
  }

  /** The handshake in progress ends here, without a registration. */
  predicate Rejects(s: State) {
    match s.comm
    case AwaitVersion(fd) => Incoming(s, fd) != Some([GET_API_VERSION])
    case SendVersion(fd) => !Writable(s, fd)
    case AwaitAid(fd) => Incoming(s, fd).None? || RequestedAid(Incoming(s, fd).value).None?
    case Acknowledge(fd, _) => !Writable(s, fd)
    case Refuse(_) => true
    case _ => false
  }

  /** The one thing the card would notice: a connection on the number of a stale selection is
      accepted, or is turned away again. */
  predicate Slips(s: State, step: Step) {
    || step == Communication(Accept(s.selected))
    || (step == Communication(Advance) && s.selected in HandFd(s.comm) && Rejects(s))
  }

  /** It takes a recycled descriptor. */
  lemma SlipsAreRecycled(w: World, s: State, step: Step)
    requires Inv(w, s) && Can(w, s, step) && Slips(s, step)
    ensures Do(w, s, step).reused
  {
    if step == Communication(Advance) {
      assert s.selected in s.open.Keys;
      AdvanceUntouched(s);
    }
  }

  /** The steps of the handshake are invisible to the card, but for one. */
  lemma HandshakeRefines(w: World, s: State, fd: int)
    requires Inv(w, s) && CommCan(s, Advance)
    requires !s.comm.Insert? && !s.comm.Dropping? && fd == s.comm.fd
    ensures Abs(NewClientDo(s)) == Abs(s) <==> !(fd == s.selected && Rejects(s))
  {
    assert fd in s.open.Keys;
    if fd == s.selected && Rejects(s) {
      RejectShows(w, s, fd);
    } else {
      HandshakeAlike(s, fd);
      AlikeAbs(s, NewClientDo(s));
    }
  }

  lemma RejectShows(w: World, s: State, fd: int)
    requires Inv(w, s) && CommCan(s, Advance) && Rejects(s) && fd == s.comm.fd == s.selected
    ensures Abs(NewClientDo(s)).sel == Stale && Abs(s).sel.App?
  {
    assert fd in s.open.Keys;
    match s.comm {
      case AwaitVersion(_) => RejectCloses(Consume(s, fd), fd);
      case AwaitAid(_) => RejectCloses(Consume(s, fd), fd);
      case SendVersion(_) => RejectCloses(s, fd);
      case Acknowledge(_, _) => RejectCloses(s, fd);
      case Refuse(_) => RejectCloses(Push(s, fd, [AID_EXISTS]), fd);
    }
  }

  lemma RejectCloses(s: State, fd: int)
    requires IsOpen(s, fd)
    ensures fd !in Reject(s, fd).open && Reject(s, fd).selected == s.selected
  {
  }

  lemma HandshakeAlike(s: State, fd: int)
    requires CommCan(s, Advance) && fd !in s.registry.Values && (fd == s.selected ==> !Rejects(s))
    requires !s.comm.Insert? && !s.comm.Dropping? && fd == s.comm.fd
    ensures Alike(s, NewClientDo(s))
  {
    match s.comm {
      case AwaitVersion(_) => VersionAlike(s, fd);
      case AwaitAid(_) => AidAlike(s, fd);
      case SendVersion(_) => SendVersionAlike(s, fd);
      case Acknowledge(_, aid) => AcknowledgeAlike(s, fd, aid);
      case Refuse(_) => RefusalAlike(s, fd);
      case Lookup(_, aid) => LookupAlike(s, fd, aid);
    }
  }

  lemma VersionAlike(s: State, fd: int)
    requires fd !in s.registry.Values && (fd == s.selected ==> Incoming(s, fd) == Some([GET_API_VERSION]))
    ensures Alike(s, AwaitVersionDo(s, fd))
  {
    ReadsAlike(s, fd);
  }

  lemma AidAlike(s: State, fd: int)
    requires fd !in s.registry.Values
    requires fd == s.selected ==> Incoming(s, fd).Some? && RequestedAid(Incoming(s, fd).value).Some?
    ensures Alike(s, AwaitAidDo(s, fd))
  {
    ReadsAlike(s, fd);
  }

  lemma SendVersionAlike(s: State, fd: int)
    requires fd !in s.registry.Values && (fd == s.selected ==> Writable(s, fd))
    ensures Alike(s, SendVersionDo(s, fd))
  {
    WritesAlike(s, fd, [API_VERSION]);
  }

  lemma AcknowledgeAlike(s: State, fd: int, aid: seq<byte>)
    requires fd !in s.registry.Values && (fd == s.selected ==> Writable(s, fd))
    ensures Alike(s, AcknowledgeDo(s, fd, aid))
  {
    WritesAlike(s, fd, [EDNA_OK]);
  }

  lemma LookupAlike(s: State, fd: int, aid: seq<byte>)
    ensures Alike(s, LookupDo(s, fd, aid))
  {
  }

  lemma AdvanceRefines(w: World, s: State)
    requires Inv(w, s) && CommCan(s, Advance)
    ensures Abs(NewClientDo(s)) == Apply(Abs(s), OpOf(s, Communication(Advance))) <==> !Slips(s, Communication(Advance))
  {
    match s.comm {
      case Insert(fd, aid) => InstallRefines(w, s, fd, aid);
      case Dropping(fd) => DropRefines(w, s, fd);
      case AwaitVersion(fd) => HandshakeRefines(w, s, fd);
      case SendVersion(fd) => HandshakeRefines(w, s, fd);
      case AwaitAid(fd) => HandshakeRefines(w, s, fd);
      case Lookup(fd, _) => HandshakeRefines(w, s, fd);
      case Refuse(fd) => HandshakeRefines(w, s, fd);
      case Acknowledge(fd, _) => HandshakeRefines(w, s, fd);
    }
  }

  lemma CommMovesRefine(s: State, comm: Comm)
    ensures Abs(s.(comm := comm)) == Abs(s)
  {
    AlikeAbs(s, s.(comm := comm));
  }

  lemma HandleRefines(s: State, fd: int)
    ensures Abs(Consume(s, fd).(comm := AfterRead(Incoming(s, fd), fd))) == Abs(s)
  {
    ReadsAlike(s, fd);
    AlikeAbs(s, Consume(s, fd).(comm := AfterRead(Incoming(s, fd), fd)));
  }

  lemma CommRefines(w: World, s: State, act: CommAct)
    requires Inv(w, s) && CommCan(s, act)
    ensures Abs(CommDo(s, act)) == Apply(Abs(s), OpOf(s, Communication(act))) <==> !Slips(s, Communication(act))
  {
    match act {
      case Advance => AdvanceRefines(w, s);
      case Accept(fd) => AcceptRefines(w, s, fd);
      case Handle(fd) => HandleRefines(s, fd);
      case SelectListening => CommMovesRefine(s, Accepting);
      case SelectReady(ready) => CommMovesRefine(s, Serving(ready));
      case AcceptFails => CommMovesRefine(s, Selecting);
      case NothingToHandle => CommMovesRefine(s, Selecting);
    }
  }

  lemma AcceptRefines(w: World, s: State, fd: int)
    requires Inv(w, s) && CommCan(s, Accept(fd))
    ensures Abs(AcceptDo(s, fd)) == Abs(s) <==> fd != s.selected
  {
    if fd == s.selected {
      assert Abs(s).sel == Stale && Abs(AcceptDo(s, fd)).sel.App?;
    } else {
      InvLinked(w, s);
      AlikeAbs(s, AcceptDo(s, fd));
    }
  }

  lemma DropRefines(w: World, s: State, fd: int)
    requires Inv(w, s) && s.comm == Dropping(fd)
    ensures Abs(Unregister(s, fd).(comm := Selecting)) == Apply(Abs(s), OpOf(s, Communication(Advance)))
  {
    InvLinked(w, s);
    assert fd in s.registry.Values ==> IsOpen(s, fd);
    DropIs(s, fd);
  }

  lemma DropIs(s: State, fd: int)
    requires Linked(s) && s.comm == Dropping(fd) && (fd in s.registry.Values ==> IsOpen(s, fd))
    ensures Abs(Unregister(s, fd).(comm := Selecting)) == Apply(Abs(s), OpOf(s, Communication(Advance)))
  {
    AlikeAbs(Unregister(s, fd), Unregister(s, fd).(comm := Selecting));
    if fd in s.registry.Values {
      RemoveRefines(s, fd);
    }
  }

  lemma EvictRefines(s: State)
    requires Linked(s) && s.selected != NO_APP_SELECTED
    ensures Abs(Unregister(s, s.selected).(selected := NO_APP_SELECTED)) == Apply(Abs(s), Evict)
  {
    var t := Unregister(s, s.selected).(selected := NO_APP_SELECTED);
    assert Abs(t).apps == Apply(Abs(s), Evict).apps;
    assert Abs(t).hist == Abs(s).hist;
  }

  lemma ChooseRefines(w: World, s: State, apdu: Capdu)
    requires Inv(w, s) && s.emu.Idle?
    ensures Abs(AskDo(s, apdu)) == Apply(Abs(s), Choose(apdu))
  {
    InvLinked(w, s);
    assert Linked(s) && NoneNegative(s);
    ChooseIs(s, apdu);
  }

  ghost predicate NoneNegative(s: State) {
    forall fd | fd in s.open :: fd >= 0
  }

  lemma ChooseIs(s: State, apdu: Capdu)
    requires Linked(s) && NoneNegative(s)
    ensures Abs(AskDo(s, apdu)) == Apply(Abs(s), Choose(apdu))
  {
    var t := s.(selected := Route(s.registry, s.selected, apdu));
    assert Abs(t).apps == Abs(s).apps && Abs(t).hist == Abs(s).hist;
    JudgeAside(s, Regular, t.selected);
    AlikeAbs(t, AskDo(s, apdu));
  }

  lemma PowerRefines(s: State, kind: byte)
    ensures Abs(Judge(s, Regular).(selected := NO_APP_SELECTED, reused := false, emu := PowerWanted(kind)))
         == Apply(Abs(s), Deselect)
  {
    var t := s.(selected := NO_APP_SELECTED);
    assert Abs(t).apps == Abs(s).apps && Abs(t).hist == Abs(s).hist;
    JudgeAside(s, Regular, NO_APP_SELECTED);
    EmuMovesRefine(t, Judge(s, Regular).(selected := NO_APP_SELECTED), PowerWanted(kind), s.answers, false);
  }

  lemma EmuMovesRefine(s: State, t: State, emu: Emu, answers: seq<Answer>, reused: bool)
    requires Alike(s, t)
    ensures Abs(t.(emu := emu, answers := answers, reused := reused)) == Abs(s)
  {
    AlikeAbs(s, t.(emu := emu, answers := answers, reused := reused));
  }

  lemma VisitRefines(s: State, fd: int, kind: byte, emu: Emu)
    ensures Abs(Push(s, fd, [kind]).(emu := emu)) == Abs(s)
  {
    WritesAlike(s, fd, [kind]);
    EmuMovesRefine(s, Push(s, fd, [kind]), emu, s.answers, s.reused);
  }

  lemma LockedAlike(s: State, apdu: Capdu)
    ensures Alike(s, s)
    ensures Alike(s, Push(Judge(s, Misled), s.selected, [TRANSCEIVE_APDU] + apdu))
  {
    var u := Judge(s, Misled);
    JudgeAlike(s, Misled);
    WritesAlike(u, s.selected, [TRANSCEIVE_APDU] + apdu);
    AlikeTrans(s, u, Push(u, s.selected, [TRANSCEIVE_APDU] + apdu));
  }

  lemma ProceedRefines(w: World, s: State)
    requires EmuCan(s, w.less, Proceed) && !s.emu.Failed?
    ensures Abs(ProceedDo(s, w.less)) == Abs(s)
  {
    var t := ProceedDo(s, w.less);
    match s.emu {
      case Locked(apdu, _) =>
        LockedAlike(s, apdu);
        var u := if Writable(s, s.selected) then Push(Judge(s, Misled), s.selected, [TRANSCEIVE_APDU] + apdu) else s;
        EmuMovesRefine(s, u, t.emu, t.answers, t.reused);
      case PowerSent(_, _, fd) =>
        ReadsAlike(s, fd);
        EmuMovesRefine(s, Consume(s, fd), t.emu, t.answers, t.reused);
      case Sent(_, _, _, _) =>
        ReadsAlike(s, s.selected);
        EmuMovesRefine(s, Consume(s, s.selected), t.emu, t.answers, t.reused);
      case PowerWanted(_) => EmuMovesRefine(s, s, t.emu, t.answers, t.reused);
      case Wanted(_, _) => EmuMovesRefine(s, s, t.emu, t.answers, t.reused);
    }
  }

  lemma FailRefines(w: World, s: State, answers: seq<Answer>)
    requires Inv(w, s) && s.emu.Failed?
    ensures Abs(Judge(Unregister(s, s.selected), Regular).(
                  selected := NO_APP_SELECTED, reused := false, emu := Idle, answers := answers))
         == Apply(Abs(s), Evict)
  {
    InvLinked(w, s);
    EvictRefines(s);
    var u := Unregister(s, s.selected);
    JudgeAside(u, Regular, NO_APP_SELECTED);
    var t := Judge(u, Regular).(selected := NO_APP_SELECTED);
    EmuMovesRefine(u.(selected := NO_APP_SELECTED), t, Idle, answers, false);
  }

  lemma ProceedStep(w: World, s: State)
    requires Inv(w, s) && EmuCan(s, w.less, Proceed)
    ensures Abs(ProceedDo(s, w.less)) == Apply(Abs(s), OpOf(s, Emulator(Proceed)))
  {
    if s.emu.Failed? {
      FailRefines(w, s, s.answers + [Answer(s.emu.apdu, s.emu.card, None, s.reused)]);
    } else {
      ProceedRefines(w, s);
    }
  }

  lemma VisitStep(w: World, s: State, aid: seq<byte>)
    requires EmuCan(s, w.less, Visit(aid))
    ensures Abs(EmuDo(s, w.less, Visit(aid))) == Abs(s)
  {
    VisitRefines(s, s.registry[aid], s.emu.kind, EmuDo(s, w.less, Visit(aid)).emu);
  }

  lemma EmuRefines(w: World, s: State, act: EmuAct)
    requires Inv(w, s) && EmuCan(s, w.less, act)
    ensures Abs(EmuDo(s, w.less, act)) == Apply(Abs(s), OpOf(s, Emulator(act)))
  {
    match act {
      case PowerEvent(kind) => PowerRefines(s, kind);
      case Ask(apdu) => ChooseRefines(w, s, apdu);
      case Visit(aid) => VisitStep(w, s, aid);
      case PassDone => EmuMovesRefine(s, s, Idle, s.answers, s.reused);
      case Proceed => ProceedStep(w, s);
    }
  }

  /** A step of the system is the one operation of the card it is meant to be if and only if it
      does not slip. */
  lemma StepRefines(w: World, s: State, step: Step)
    requires Inv(w, s) && Can(w, s, step)
    ensures Abs(Do(w, s, step)) == Apply(Abs(s), OpOf(s, step)) <==> !Slips(s, step)
  {
    match step {
      case Join(lib, aid) => JoinRefines(w, s, lib, aid);
      case Client(i, act) => ClientRefines(w, s, i, act);
      case Communication(act) => CommRefines(w, s, act);
      case Emulator(act) => EmuRefines(w, s, act);
    }
  }

  // ----- Runs --------------------------------------------------------------------------------

  /** The operations of a run, and the card after the first `k` of them. */
  function OpsOf(ss: seq<State>, steps: seq<Step>): seq<CardOp>
    requires |ss| == |steps| + 1
  {
    seq(|steps|, (j: nat) requires j < |steps| => OpOf(ss[j], steps[j]))
  }

  function CardAfter(ops: seq<CardOp>, k: nat): Card
    requires k <= |ops|
  {
    if k == 0 then Card(map[], Nobody, []) else Apply(CardAfter(ops, k - 1), ops[k - 1])
  }

  function CardsOf(ss: seq<State>): seq<Card> {
    seq(|ss|, (j: nat) requires j < |ss| => Abs(ss[j]))
  }

  function SlipsOf(ss: seq<State>, steps: seq<Step>): seq<bool>
    requires |ss| == |steps| + 1
  {
    seq(|steps|, (j: nat) requires j < |steps| => Slips(ss[j], steps[j]))
  }

  function ReusedOf(ss: seq<State>): seq<bool> {
    seq(|ss|, (j: nat) requires j < |ss| => ss[j].reused)
  }

  /** So far these have been the states of that card. */
  ghost predicate Faithful(cards: seq<Card>, ops: seq<CardOp>, k: nat)
    requires k <= |ops| < |cards|
  {
    forall j | 0 <= j <= k :: cards[j] == CardAfter(ops, j)
  }

  ghost predicate NoSlip(slips: seq<bool>, k: nat)
    requires k <= |slips|
  {
    forall j | 0 <= j < k :: !slips[j]
  }

  lemma RunSteps(w: World, ss: seq<State>, steps: seq<Step>, k: nat)
    requires IsRun(w, ss, steps) && k < |steps|
    ensures Abs(ss[k + 1]) == Apply(Abs(ss[k]), OpOf(ss[k], steps[k])) <==> !Slips(ss[k], steps[k])
    ensures Slips(ss[k], steps[k]) ==> ss[k + 1].reused
  {
    RunKeeps(w, ss, steps, k);
    StepRefines(w, ss[k], steps[k]);
    if Slips(ss[k], steps[k]) {
      SlipsAreRecycled(w, ss[k], steps[k]);
    }
  }

  /** Between two cards lies the operation, unless the step slips, which leaves the selection recycled. */
  predicate FitsAt(cards: seq<Card>, ops: seq<CardOp>, slips: seq<bool>, reused: seq<bool>, j: nat)
    requires j < |ops| == |slips| && |cards| == |reused| == |ops| + 1
  {
    && (slips[j] <==> cards[j + 1] != Apply(cards[j], ops[j]))
    && (slips[j] ==> reused[j + 1])
  }

  ghost predicate GoesOn(cards: seq<Card>, ops: seq<CardOp>, slips: seq<bool>, reused: seq<bool>) {
    && |ops| == |slips| && |cards| == |reused| == |ops| + 1
    && cards[0] == Card(map[], Nobody, [])
    && forall j | 0 <= j < |ops| :: FitsAt(cards, ops, slips, reused, j)
  }

  /** Steps that are right one by one are right together, and the first wrong one shows. */
  lemma {:induction false} StepsAddUp(cards: seq<Card>, ops: seq<CardOp>, slips: seq<bool>, reused: seq<bool>, k: nat)
    requires GoesOn(cards, ops, slips, reused) && k <= |ops|
    ensures Faithful(cards, ops, k) <==> NoSlip(slips, k)
    ensures (forall j | 0 < j <= k :: !reused[j]) ==> NoSlip(slips, k)
  {
    if k > 0 {
      StepsAddUp(cards, ops, slips, reused, k - 1);
      assert FitsAt(cards, ops, slips, reused, k - 1);
    }
  }

  lemma RunStarts(w: World, ss: seq<State>, steps: seq<Step>)
    requires IsRun(w, ss, steps)
    ensures CardsOf(ss)[0] == Card(map[], Nobody, [])
  {
    assert Abs(INITIAL).hist == [];
  }

  lemma RunGoesOn(w: World, ss: seq<State>, steps: seq<Step>, j: nat)
    requires IsRun(w, ss, steps) && j < |steps|
    ensures FitsAt(CardsOf(ss), OpsOf(ss, steps), SlipsOf(ss, steps), ReusedOf(ss), j)
  {
    RunSteps(w, ss, steps, j);
  }

  lemma RunIsCard(w: World, ss: seq<State>, steps: seq<Step>)
    requires IsRun(w, ss, steps)
    ensures GoesOn(CardsOf(ss), OpsOf(ss, steps), SlipsOf(ss, steps), ReusedOf(ss))
  {
    RunStarts(w, ss, steps);
    forall j | 0 <= j < |steps|
      ensures FitsAt(CardsOf(ss), OpsOf(ss, steps), SlipsOf(ss, steps), ReusedOf(ss), j)
    {
      RunGoesOn(w, ss, steps, j);
    }
  }

  /** Every run is, throughout, the run of the abstract card that does the operations of its
      steps, if and only if no step of it slips; and none does unless a selection was recycled. */
  lemma RunRefines(w: World, ss: seq<State>, steps: seq<Step>, k: nat)
    requires IsRun(w, ss, steps) && k <= |steps|
    ensures Faithful(CardsOf(ss), OpsOf(ss, steps), k) <==> NoSlip(SlipsOf(ss, steps), k)
    ensures (forall j | 0 < j <= k :: !ReusedOf(ss)[j]) ==> NoSlip(SlipsOf(ss, steps), k)
  {
    RunIsCard(w, ss, steps);
    StepsAddUp(CardsOf(ss), OpsOf(ss, steps), SlipsOf(ss, steps), ReusedOf(ss), k);
  }
}

/** Every state of every run satisfies the invariant. */
module Runs {
  import opened Bytes
  import opened Protocol
  import opened System
  import opened Invariant
  import opened ClientSteps
  import opened CommSteps
  import opened EmuSteps

  lemma AdvanceKeeps(w: World, s: State)
    requires Inv(w, s) && CommCan(s, Advance)
    ensures Inv(w, NewClientDo(s))
  {
    match s.comm {
      case AwaitVersion(fd) => AwaitVersionKeeps(w, s, fd);
      case SendVersion(fd) => SendVersionKeeps(w, s, fd);
      case AwaitAid(fd) => AwaitAidKeeps(w, s, fd);
      case Lookup(fd, aid) => LookupKeeps(w, s, fd, aid);
      case Refuse(fd) => RefuseKeeps(w, s, fd);
      case Acknowledge(fd, aid) => AcknowledgeKeeps(w, s, fd, aid);
      case Insert(fd, aid) => InsertKeeps(w, s, fd, aid);
      case Dropping(fd) => UnregisterKeeps(w, s, fd);
    }
  }

  lemma CommKeeps(w: World, s: State, act: CommAct)
    requires Inv(w, s) && CommCan(s, act)
    ensures Inv(w, CommDo(s, act))
  {
    match act {
      case SelectListening => CommMoves(w, s, Accepting);
      case SelectReady(ready) => SelectKeeps(w, s, ready);
      case Accept(fd) => AcceptKeeps(w, s, fd);
      case AcceptFails => CommMoves(w, s, Selecting);
      case Handle(fd) => HandleKeeps(w, s, fd);
      case NothingToHandle => CommMoves(w, s, Selecting);
      case Advance => AdvanceKeeps(w, s);
    }
  }

  lemma LockedKeeps(w: World, s: State, apdu: Capdu, card: Card)
    requires Inv(w, s) && s.emu == Locked(apdu, card)
    ensures Inv(w, ProceedDo(s, w.less))
  {
    if Writable(s, s.selected) {
      MisleadKeeps(w, s);
      SendKeeps(w, Judge(s, Misled), s.open[s.selected], apdu, card);
    } else {
      NoSendKeeps(w, s, apdu, card);
    }
  }

  lemma ProceedKeeps(w: World, s: State)
    requires Inv(w, s) && EmuCan(s, w.less, Proceed)
    ensures Inv(w, ProceedDo(s, w.less))
  {
    match s.emu {
      case PowerWanted(kind) => EmuMoves(w, s, Power(kind, None));
      case PowerSent(_, _, _) => PowerReadKeeps(w, s);
      case Wanted(apdu, card) => EmuMoves(w, s, Locked(apdu, card));
      case Locked(apdu, card) => LockedKeeps(w, s, apdu, card);
      case Sent(apdu, card, _, _) =>
        if ReadBy(s, s.selected).Some? {
          ReceiveKeeps(w, s, Answer(apdu, card, ReadBy(s, s.selected), s.reused));
        } else {
          NoReceiveKeeps(w, s, Failed(apdu, card));
        }
      case Failed(apdu, card) => FailedKeeps(w, s, Answer(apdu, card, None, s.reused));
    }
  }

  lemma EmuKeeps(w: World, s: State, act: EmuAct)
    requires Inv(w, s) && EmuCan(s, w.less, act)
    ensures Inv(w, EmuDo(s, w.less, act))
  {
    match act {
      case PowerEvent(kind) => PowerEventKeeps(w, s, kind);
      case Ask(apdu) => AskKeeps(w, s, apdu);
      case Visit(aid) =>
        if Writable(s, s.registry[aid]) {
          VisitKeeps(w, s, aid);
        } else {
          EmuMoves(w, s, Power(s.emu.kind, Some(aid)));
        }
      case PassDone => EmuMoves(w, s, Idle);
      case Proceed => ProceedKeeps(w, s);
    }
  }

  lemma StepKeeps(w: World, s: State, step: Step)
    requires Inv(w, s) && Can(w, s, step)
    ensures Inv(w, Do(w, s, step))
  {
    match step {
      case Join(lib, aid) => JoinKeeps(w, s, lib, aid);
      case Client(i, act) => ClientKeeps(w, s, i, act);
      case Communication(act) => CommKeeps(w, s, act);
      case Emulator(act) => EmuKeeps(w, s, act);
    }
  }

  /** The invariant holds throughout every run, under every schedule. */
  lemma {:induction false} RunKeeps(w: World, ss: seq<State>, steps: seq<Step>, k: nat)
    requires IsRun(w, ss, steps) && k < |ss|
    ensures Inv(w, ss[k])
  {
    if k == 0 {
      assert INITIAL.registry.Values == {};
    } else {
      RunKeeps(w, ss, steps, k - 1);
      StepKeeps(w, ss[k - 1], steps[k - 1]);
      assert ss[k - 1 + 1] == Do(w, ss[k - 1], steps[k - 1]);
    }
  }
}

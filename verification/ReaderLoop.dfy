/** The emulator thread as an observer sees it who knows only the bytes that pass between it and
    the reader: what comes after what, in every run. */
module ReaderLoop {
  import opened Bytes
  import opened CommThread
  import opened Emulator
  import F = WireFormat

  /** The bytes an action gives to the reader. */
  function BytesOf(a: Action): seq<byte> {
    if a.Control? then Wire(a.cmd) else []
  }

  /** An action the observer waits for: not a turn of the other thread, nor a delay. */
  predicate Counts(a: Action) {
    !a.Meanwhile? && !a.Delay?
  }

  /** Action `j` is the next one after action `i`. */
  predicate Next(tr: seq<Action>, i: nat, j: nat) {
    && i < j < |tr| && Counts(tr[i]) && Counts(tr[j])
    && forall k | i < k < j :: !Counts(tr[k])
  }

  predicate DelaysIn(tr: seq<Action>, i: nat, j: nat) {
    exists k | i < k < j :: k < |tr| && tr[k].Delay?
  }

  /** From one action to the next only a delay changes anything, once, and only when it is due. */
  lemma {:induction false} Between(cfg: Config, tr: seq<Action>, i: nat, j: nat)
    requires i < j < |tr| && StageOf(cfg, tr) != Wrong && forall k | i < k < j :: !Counts(tr[k])
    ensures var s, t := StageOf(cfg, tr[..i + 1]), StageOf(cfg, tr[..j]);
      if DelaysIn(tr, i, j) then s.Due? && s.delay && t == Due(s.answer, false) else t == s
  {
    if i + 1 < j {
      Between(cfg, tr, i, j - 1);
      StageBefore(cfg, tr, j - 1);
      assert !Counts(tr[j - 1]) && tr[..j - 1 + 1] == tr[..j];
      assert DelaysIn(tr, i, j) <==> DelaysIn(tr, i, j - 1) || tr[j - 1].Delay?;
      WhileWaiting(cfg, StageOf(cfg, tr[..j - 1]), tr[j - 1]);
    }
  }

  lemma WhileWaiting(cfg: Config, s: Stage, a: Action)
    requires !Counts(a) && After(cfg, s, a) != Wrong
    ensures After(cfg, s, a) == if a.Delay? then Due(s.answer, false) else s
    ensures a.Delay? ==> s.Due? && s.delay
  {
  }

  /** The stages around two actions, one next to the other. */
  lemma Around(cfg: Config, tr: seq<Action>, i: nat, j: nat)
    requires Next(tr, i, j) && StageOf(cfg, tr) != Wrong
    ensures var (s, t) := (After(cfg, StageOf(cfg, tr[..i]), tr[i]), StageOf(cfg, tr[..j]));
      && s != Wrong && After(cfg, t, tr[j]) != Wrong
      && (if DelaysIn(tr, i, j) then s.Due? && s.delay && t == Due(s.answer, false) else t == s)
  {
    StageBefore(cfg, tr, i);
    StageBefore(cfg, tr, j);
    Between(cfg, tr, i, j);
  }

  /** From stage `s`, perhaps after a delay that is due, `b` may come. */
  predicate Leads(cfg: Config, s: Stage, b: Action) {
    && s != Wrong && Counts(b)
    && (After(cfg, s, b) != Wrong || (s.Due? && s.delay && After(cfg, Due(s.answer, false), b) != Wrong))
  }

  /** How emulation is entered: ATQ and SAK, silence, emulation, each after the other was taken;
      then the thread waits for events, or ends if it was cancelled. */
  lemma Entering(cfg: Config, tr: seq<Action>, i: nat, j: nat)
    requires StageOf(cfg, tr) != Wrong && Next(tr, i, j)
    ensures BytesOf(tr[0]) == [0x58, 0x8d, 0xe3, (cfg.atq / 256) as byte, (cfg.atq % 256) as byte, cfg.sak]
    ensures BytesOf(tr[i]) == BytesOf(tr[0]) ==> tr[i].ok && BytesOf(tr[j]) == [0x58, 0x8d, 0xcc, 0x00]
    ensures BytesOf(tr[i]) == [0x58, 0x8d, 0xcc, 0x00] ==> tr[i].ok && BytesOf(tr[j]) == [0x83, 0x10, 0x01, 0x00]
    ensures BytesOf(tr[i]) == [0x83, 0x10, 0x01, 0x00] ==>
      tr[i].ok && (BytesOf(tr[j]) == [0x83, 0x00, 0x00, 0x64] || BytesOf(tr[j]) == [0x83, 0x10, 0x00, 0x00])
    ensures BytesOf(tr[i]) == [0x83, 0x10, 0x00, 0x00] ==> tr[i].ok && BytesOf(tr[j]) == BytesOf(tr[0])
  {
    Starting(cfg, tr);
    Around(cfg, tr, i, j);
    EnteringStep(cfg, StageOf(cfg, tr[..i]), tr[i], tr[j]);
  }

  lemma Starting(cfg: Config, tr: seq<Action>)
    requires tr != [] && StageOf(cfg, tr) != Wrong
    ensures BytesOf(tr[0]) == [0x58, 0x8d, 0xe3, (cfg.atq / 256) as byte, (cfg.atq % 256) as byte, cfg.sak]
  {
    StageBefore(cfg, tr, 0);
  }

  lemma EnteringStep(cfg: Config, st: Stage, a: Action, b: Action)
    requires Leads(cfg, After(cfg, st, a), b)
    ensures var setup := [0x58, 0x8d, 0xe3, (cfg.atq / 256) as byte, (cfg.atq % 256) as byte, cfg.sak];
      && (BytesOf(a) == setup ==> a.ok && BytesOf(b) == [0x58, 0x8d, 0xcc, 0x00])
      && (BytesOf(a) == [0x83, 0x10, 0x00, 0x00] ==> a.ok && BytesOf(b) == setup)
    ensures BytesOf(a) == [0x58, 0x8d, 0xcc, 0x00] ==> a.ok && BytesOf(b) == [0x83, 0x10, 0x01, 0x00]
    ensures BytesOf(a) == [0x83, 0x10, 0x01, 0x00] ==>
      a.ok && (BytesOf(b) == [0x83, 0x00, 0x00, 0x64] || BytesOf(b) == [0x83, 0x10, 0x00, 0x00])
  {
    Codes(a);
  }

  /** Which command bytes stand for. */
  lemma Codes(a: Action)
    ensures BytesOf(a) == [0x83, 0x10, 0x01, 0x00] <==> a.Control? && a.cmd.StartEmu?
    ensures BytesOf(a) == [0x83, 0x10, 0x00, 0x00] <==> a.Control? && a.cmd.EndEmu?
    ensures BytesOf(a) == [0x83, 0x00, 0x00, 0x64] <==> a.Control? && a.cmd.WaitEvent?
    ensures BytesOf(a) == [0x58, 0x8d, 0xcc, 0x00] <==> a.Control? && a.cmd.BuzzerOff?
    ensures |BytesOf(a)| == 6 && BytesOf(a)[0] == 0x58 <==> a.Control? && a.cmd.SetAtqSak?
  {
    if a.Control? {
      var x := BytesOf(a);
      match a.cmd {
        case SetAtqSak(_, _) =>
        case BuzzerOff => assert x[0] == 0x58;
        case StartEmu => assert x[0] == 0x83 && x[1] == 0x10 && x[2] == 0x01;
        case EndEmu => assert x[0] == 0x83 && x[1] == 0x10 && x[2] == 0x00;
        case WaitEvent => assert x[0] == 0x83 && x[1] == 0x00;
        case GetCApdu => assert x[0] == 0x84;
        case SendRApdu(_) => assert x[0] == 0x84;
      }
    }
  }

  /** The thread goes back to waiting, or ends emulation because it was cancelled. */
  predicate Resumes(b: Action) {
    BytesOf(b) == [0x83, 0x00, 0x00, 0x64] || BytesOf(b) == [0x83, 0x10, 0x00, 0x00]
  }

  /** What is done about the second byte of an event report: 01 powers the applications up, 04
      powers them down, and is followed by a reset if one was selected, 02 is a command APDU to be
      fetched, and anything else is ignored; a failure ends emulation, as does a cancel. */
  lemma EventAnswered(cfg: Config, tr: seq<Action>, i: nat, j: nat)
    requires StageOf(cfg, tr) != Wrong && Next(tr, i, j)
    ensures BytesOf(tr[i]) == [0x83, 0x00, 0x00, 0x64] && BytesOf(tr[j]) != [0x83, 0x10, 0x00, 0x00] ==>
      && tr[i].ok && |tr[i].rsp| >= 2
      && (tr[j].PoweredUpAll? <==> tr[i].rsp[1] == 0x01)
      && (tr[j].PoweredDownAll? <==> tr[i].rsp[1] == 0x04)
      && (BytesOf(tr[j]) == [0x84] <==> tr[i].rsp[1] == 0x02)
      && (BytesOf(tr[j]) == [0x83, 0x00, 0x00, 0x64] <==> tr[i].rsp[1] !in {0x01, 0x02, 0x04})
    ensures tr[i].PoweredUpAll? ==> Resumes(tr[j])
    ensures tr[i].PoweredDownAll? ==>
      Resumes(tr[j]) && (tr[i].before.selected != -1 ==> BytesOf(tr[j]) == [0x83, 0x10, 0x00, 0x00])
  {
    Around(cfg, tr, i, j);
    EventStep(cfg, StageOf(cfg, tr[..i]), tr[i], tr[j]);
  }

  lemma EventStep(cfg: Config, st: Stage, a: Action, b: Action)
    requires Leads(cfg, After(cfg, st, a), b)
    ensures BytesOf(a) == [0x83, 0x00, 0x00, 0x64] && BytesOf(b) != [0x83, 0x10, 0x00, 0x00] ==>
      && a.ok && |a.rsp| >= 2
      && (b.PoweredUpAll? <==> a.rsp[1] == 0x01)
      && (b.PoweredDownAll? <==> a.rsp[1] == 0x04)
      && (BytesOf(b) == [0x84] <==> a.rsp[1] == 0x02)
      && (BytesOf(b) == [0x83, 0x00, 0x00, 0x64] <==> a.rsp[1] !in {0x01, 0x02, 0x04})
    ensures a.PoweredUpAll? ==> Resumes(b)
    ensures a.PoweredDownAll? ==>
      Resumes(b) && (a.before.selected != -1 ==> BytesOf(b) == [0x83, 0x10, 0x00, 0x00])
  {
    Codes(a);
    Codes(b);
  }

  /** What is done about a command APDU: unless the transfer fails or its status byte is one of six,
      the bytes behind the status byte are exchanged; what the application answered, or 6f00 when
      the exchange failed, goes to the reader behind 84; then the thread waits again. */
  lemma ApduAnswered(cfg: Config, tr: seq<Action>, i: nat, j: nat)
    requires StageOf(cfg, tr) != Wrong && Next(tr, i, j)
    ensures tr[i].Control? && tr[i].cmd.GetCApdu? ==>
      BytesOf(tr[i]) == [0x84]
      && if !tr[i].ok || (tr[i].rsp != [] && tr[i].rsp[0] in {0x3b, 0x3c}) then
           BytesOf(tr[j]) == [0x83, 0x10, 0x00, 0x00]
         else if tr[i].rsp != [] && tr[i].rsp[0] in {0x03, 0x13, 0x70, 0x7d} then Resumes(tr[j])
         else tr[j].Exchange? && tr[j].apdu == if tr[i].rsp == [] then [] else tr[i].rsp[1..]
    ensures tr[i].Exchange? ==> BytesOf(tr[j]) == [0x84] + if tr[i].ok then tr[i].rdata else [0x6f, 0x00]
    ensures tr[i].Control? && tr[i].cmd.SendRApdu? ==>
      Resumes(tr[j]) && (!tr[i].ok ==> BytesOf(tr[j]) == [0x83, 0x10, 0x00, 0x00])
  {
    Around(cfg, tr, i, j);
    ApduStep(cfg, StageOf(cfg, tr[..i]), tr[i], tr[j]);
  }

  lemma ApduStep(cfg: Config, st: Stage, a: Action, b: Action)
    requires Leads(cfg, After(cfg, st, a), b)
    ensures a.Control? && a.cmd.GetCApdu? ==>
      BytesOf(a) == [0x84]
      && if !a.ok || (a.rsp != [] && a.rsp[0] in {0x3b, 0x3c}) then BytesOf(b) == [0x83, 0x10, 0x00, 0x00]
         else if a.rsp != [] && a.rsp[0] in {0x03, 0x13, 0x70, 0x7d} then Resumes(b)
         else b.Exchange? && b.apdu == if a.rsp == [] then [] else a.rsp[1..]
    ensures a.Exchange? ==> BytesOf(b) == [0x84] + if a.ok then a.rdata else [0x6f, 0x00]
    ensures a.Control? && a.cmd.SendRApdu? ==>
      Resumes(b) && (!a.ok ==> BytesOf(b) == [0x83, 0x10, 0x00, 0x00])
  {
  }

  /** There is a delay before the answer exactly if one is configured and, when only successes are
      delayed, the answer is one that ends in 9000. */
  lemma AnswerDelayed(cfg: Config, tr: seq<Action>, i: nat, j: nat)
    requires StageOf(cfg, tr) != Wrong && Next(tr, i, j) && tr[i].Exchange?
    ensures var answer := if tr[i].ok then tr[i].rdata else [0x6f, 0x00];
      DelaysIn(tr, i, j) <==>
        && cfg.cmdDelay != 0
        && (cfg.delaySuccessOnly ==>
              |answer| >= 2 && answer[|answer| - 2] == 0x90 && answer[|answer| - 1] == 0x00)
  {
    Around(cfg, tr, i, j);
    DueOrNot(cfg, StageOf(cfg, tr[..i]), tr[i], StageOf(cfg, tr[..j]), tr[j], DelaysIn(tr, i, j));
  }

  lemma DueOrNot(cfg: Config, st: Stage, a: Action, t: Stage, b: Action, delayed: bool)
    requires a.Exchange? && Counts(b)
    requires var s := After(cfg, st, a);
      && s != Wrong && After(cfg, t, b) != Wrong
      && (if delayed then s.Due? && s.delay && t == Due(s.answer, false) else t == s)
    ensures var answer := if a.ok then a.rdata else [0x6f, 0x00];
      delayed <==>
        && cfg.cmdDelay != 0
        && (cfg.delaySuccessOnly ==>
              |answer| >= 2 && answer[|answer| - 2] == 0x90 && answer[|answer| - 1] == 0x00)
  {
    var answer := if a.ok then a.rdata else [0x6f, 0x00];
    assert |answer| >= 2 ==> answer[|answer| - 2..] == [answer[|answer| - 2], answer[|answer| - 1]];
    assert After(cfg, st, a) == Due(answer, Delayed(cfg, answer));
  }

  /** A selection, seen on the sockets: every registered application is sent 01 in a frame, and
      nobody else anything; at a deselection 02.  Nothing is selected afterwards. */
  lemma PowerOnSockets(reliable: bool, start: Daemon, tr: seq<Action>, now: Daemon, i: nat, fd: int)
    requires Follows(reliable, start, tr, now) && i < |tr| && (tr[i].PoweredUpAll? || tr[i].PoweredDownAll?)
    requires fd in tr[i].before.streams.tx
    ensures tr[i].after.selected == -1 && fd in tr[i].after.streams.tx
    ensures var (before, after) := (tr[i].before.streams.tx[fd], tr[i].after.streams.tx[fd]);
      if fd !in tr[i].before.registry.Values then after == before
      else
        && before <= after <= before + [0x00, 0x01, if tr[i].PoweredUpAll? then 0x01 else 0x02]
        && (reliable ==> after == before + [0x00, 0x01, if tr[i].PoweredUpAll? then 0x01 else 0x02])
  {
    ActionsAreDone(reliable, start, tr, now, i);
    F.ByteFrame([], 0x01);
    F.ByteFrame([], 0x02);
  }
}

/** The emulator thread (edna_emu.cpp): the commands it gives the card reader, and what it does
    with the events and command APDUs the reader reports. */
module Emulator {
  import opened Bytes
  import opened Protocol
  import opened CommThread
  import opened ByteString

  const READER_BUFFER: nat := 512

  datatype Config = Config(atq: uint16, sak: byte, cmdDelay: int, delaySuccessOnly: bool)

  datatype Command =
    | SetAtqSak(atq: uint16, sak: byte)
    | BuzzerOff
    | StartEmu
    | EndEmu
    | WaitEvent
    | GetCApdu
    | SendRApdu(rapdu: seq<byte>)

  function Wire(cmd: Command): seq<byte> {
    match cmd
    case SetAtqSak(atq, sak) => [0x58, 0x8d, 0xe3, (atq / 256) as byte, (atq % 256) as byte, sak]
    case BuzzerOff => [0x58, 0x8d, 0xcc, 0x00]
    case StartEmu => [0x83, 0x10, 0x01, 0x00]
    case EndEmu => [0x83, 0x10, 0x00, 0x00]
    case WaitEvent => [0x83, 0x00, 0x00, 0x64]
    case GetCApdu => [0x84]
    case SendRApdu(rapdu) => [0x84] + rapdu
  }

  /** The reader can tell all commands apart, except that an empty response APDU looks like
      another request for a command APDU. */
  lemma WireAmbiguity(a: Command, b: Command)
    ensures Wire(a) == Wire(b) <==>
      || a == b
      || (a == GetCApdu && b == SendRApdu([]))
      || (a == SendRApdu([]) && b == GetCApdu)
  {
    if Wire(a) == Wire(b) {
      assert Wire(a)[0] == Wire(b)[0];
      assert a.SendRApdu? ==> a.rapdu == Wire(a)[1..];
      assert b.SendRApdu? ==> b.rapdu == Wire(b)[1..];
      if a.SetAtqSak? && b.SetAtqSak? {
        assert Wire(a)[3] == Wire(b)[3] && Wire(a)[4] == Wire(b)[4] && Wire(a)[5] == Wire(b)[5];
      }
      assert a.BuzzerOff? || b.BuzzerOff? ==> Wire(a)[2] == Wire(b)[2];
      assert Wire(a)[0] == 0x83 ==> Wire(a)[1] == Wire(b)[1] && Wire(a)[2] == Wire(b)[2];
    }
  }

  /** What the thread does, in order.  Calls into the communications thread's object note the
      state of the daemon before and after them; `Meanwhile` is what that thread does between. */
  datatype Action =
    | Control(cmd: Command, ok: bool, rsp: seq<byte>)
    | PoweredUpAll(before: Daemon, after: Daemon)
    | PoweredDownAll(before: Daemon, after: Daemon)
    | Exchange(apdu: seq<byte>, ok: bool, rdata: seq<byte>, before: Daemon, after: Daemon)
    | Meanwhile(before: Daemon, after: Daemon)
    | Delay

  /** A status that makes the thread drop what it asked for, and one that also ends it. */
  predicate Skips(rsp: seq<byte>) {
    |rsp| > 0 && rsp[0] in {0x03, 0x13, 0x3b, 0x3c, 0x70, 0x7d}
  }

  predicate Aborts(rsp: seq<byte>) {
    |rsp| > 0 && rsp[0] in {0x3b, 0x3c}
  }

  function Answer(ok: bool, rdata: seq<byte>): seq<byte> {
    if ok then rdata else SW_NO_DIAGNOSIS
  }

  predicate Delayed(cfg: Config, answer: seq<byte>) {
    cfg.cmdDelay != 0 && (cfg.delaySuccessOnly ==> |answer| >= 2 && answer[|answer| - 2..] == [0x90, 0x00])
  }

  function Pauses(cfg: Config, answer: seq<byte>): seq<Action> {
    if Delayed(cfg, answer) then [Delay] else []
  }

  /** What is done about the event of a command APDU: it is asked for and, if the reader has one,
      exchanged, and the outcome is the last thing given to the reader. */
  predicate Handles(done: seq<Action>) {
    && done != [] && done[0].Control? && done[0].cmd == GetCApdu
    && if !done[0].ok || Skips(done[0].rsp) then |done| == 1
       else Completes(done[1..], if done[0].rsp == [] then [] else done[0].rsp[1..])
  }

  predicate Completes(done: seq<Action>, apdu: seq<byte>) {
    && |done| > 2 && done[1].Exchange? && done[1].apdu == apdu
    && done[|done| - 1].Control?
    && done[|done| - 1].cmd == SendRApdu(Answer(done[1].ok, done[1].rdata))
  }

  lemma Trail(past: seq<Action>, a: Action, b: Action, c: Action, pauses: seq<Action>, z: Action, apdu: seq<byte>)
    requires b.Exchange? && b.apdu == apdu && z.Control? && z.cmd == SendRApdu(Answer(b.ok, b.rdata))
    ensures var tr := past + [a] + [b] + [c] + pauses + [z];
      past <= tr && Completes(tr[|past|..], apdu)
  {
    var tr := past + [a] + [b] + [c] + pauses + [z];
    assert tr[|past|..] == [a, b, c] + pauses + [z];
  }

  lemma HandlesRest(past: seq<Action>, asked: Action, tr: seq<Action>)
    requires past + [asked] <= tr && asked.Control? && asked.cmd == GetCApdu && asked.ok && !Skips(asked.rsp)
    requires Completes(tr[|past| + 1..], if asked.rsp == [] then [] else asked.rsp[1..])
    ensures past < tr && Handles(tr[|past|..])
  {
    assert tr[|past|..][1..] == tr[|past| + 1..];
    assert tr[|past|] == (past + [asked])[|past|];
  }

  /** Where the thread is.  `Stuck` is the end after a failed control command, `Stopping` leaves
      only the end of emulation, and `Wrong` is where no run may come. */
  datatype Stage =
    | Off | Configured | Quiet
    | Listening | Event(code: byte) | Owed(apdu: seq<byte>) | Due(answer: seq<byte>, delay: bool)
    | Resetting | Stopping | Done | Stuck(on: bool) | Wrong

  function AfterControl(cfg: Config, st: Stage, cmd: Command, ok: bool, rsp: seq<byte>): Stage {
    match cmd
    case SetAtqSak(atq, sak) =>
      if st != Off || atq != cfg.atq || sak != cfg.sak then Wrong else if ok then Configured else Stuck(false)
    case BuzzerOff =>
      if st != Configured then Wrong else if ok then Quiet else Stuck(false)
    case StartEmu =>
      if st != Quiet then Wrong else if ok then Listening else Stuck(false)
    case EndEmu =>
      if st == Resetting then (if ok then Off else Stuck(true))
      else if st.Listening? || st.Event? || st.Stopping? then (if ok then Done else Stuck(true))
      else Wrong
    case WaitEvent =>
      if st != Listening || (ok && |rsp| < 2) then Wrong
      else if !ok then Stopping
      else if rsp[1] in {0x01, 0x02, 0x04} then Event(rsp[1])
      else Listening
    case GetCApdu =>
      if st != Event(0x02) then Wrong
      else if !ok || Aborts(rsp) then Stopping
      else if Skips(rsp) then Listening
      else Owed(if rsp == [] then [] else rsp[1..])
    case SendRApdu(rapdu) =>
      if st != Due(rapdu, false) then Wrong else if ok then Listening else Stopping
  }

  function After(cfg: Config, st: Stage, a: Action): Stage {
    match a
    case Control(cmd, ok, rsp) => AfterControl(cfg, st, cmd, ok, rsp)
    case PoweredUpAll(_, _) => if st == Event(0x01) then Listening else Wrong
    case PoweredDownAll(before, _) =>
      if st != Event(0x04) then Wrong else if before.selected != NO_APP_SELECTED then Resetting else Listening
    case Meanwhile(_, _) => if st.Listening? || st.Event? || st.Owed? || st.Due? || st.Stopping? then st else Wrong
    case Exchange(apdu, ok, rdata, _, _) =>
      if st == Owed(apdu) then Due(Answer(ok, rdata), Delayed(cfg, Answer(ok, rdata))) else Wrong
    case Delay => if st.Due? && st.delay then Due(st.answer, false) else Wrong
  }

  function StageOf(cfg: Config, tr: seq<Action>): Stage {
    if tr == [] then Off else After(cfg, StageOf(cfg, tr[..|tr| - 1]), tr[|tr| - 1])
  }

  /** The history of the daemon behind a trace, from `start` to `now`: every call into it did
      what `transceive` or a power event does, on the state left by what came before. */
  predicate Follows(reliable: bool, start: Daemon, tr: seq<Action>, now: Daemon) {
    if tr == [] then start == now
    else
      var past, a := tr[..|tr| - 1], tr[|tr| - 1];
      if a.Control? || a.Delay? then Follows(reliable, start, past, now)
      else a.after == now && IsDone(reliable, a) && Follows(reliable, start, past, a.before)
  }

  predicate IsDone(reliable: bool, a: Action) {
    match a
    case PoweredUpAll(before, after) => Powered(reliable, before, after, POWER_UP)
    case PoweredDownAll(before, after) => Powered(reliable, before, after, POWER_DOWN)
    case Exchange(apdu, ok, rdata, before, after) => Transceived(reliable, before, after, apdu, ok, rdata)
    case Meanwhile(before, after) => TookTurns(before, after)
    case _ => true
  }

  /** Every exchange of a trace is the outcome of `transceive`, and every power event its own. */
  lemma {:induction false} ActionsAreDone(reliable: bool, start: Daemon, tr: seq<Action>, now: Daemon, i: nat)
    requires Follows(reliable, start, tr, now) && i < |tr|
    ensures IsDone(reliable, tr[i])
  {
    var past, a := tr[..|tr| - 1], tr[|tr| - 1];
    if i < |past| {
      ActionsAreDone(reliable, start, past, if a.Control? || a.Delay? then now else a.before, i);
    }
  }

  lemma AppendFollows(reliable: bool, start: Daemon, tr: seq<Action>, a: Action, before: Daemon, now: Daemon)
    requires Follows(reliable, start, tr, before)
    requires if a.Control? || a.Delay? then before == now
             else a.before == before && a.after == now && IsDone(reliable, a)
    ensures Follows(reliable, start, tr + [a], now)
  {
    assert (tr + [a])[..|tr|] == tr;
  }

  lemma Append(cfg: Config, tr: seq<Action>, a: Action)
    ensures StageOf(cfg, tr + [a]) == After(cfg, StageOf(cfg, tr), a)
    ensures OutputOf(tr + [a]) == OutputOf(tr) + GivenBy(a)
  {
    assert (tr + [a])[..|tr|] == tr;
  }

  /** One control transfer: the bytes given to the reader, whether it took them, and its response. */
  datatype Transfer = Transfer(bytes: seq<byte>, ok: bool, rsp: seq<byte>)

  function GivenBy(a: Action): seq<Transfer> {
    if a.Control? then [Transfer(Wire(a.cmd), a.ok, a.rsp)] else []
  }

  /** The control transfers of a trace. */
  function OutputOf(tr: seq<Action>): seq<Transfer> {
    if tr == [] then [] else OutputOf(tr[..|tr| - 1]) + GivenBy(tr[|tr| - 1])
  }

  lemma {:induction false} PrefixesAreRight(cfg: Config, tr: seq<Action>, k: nat)
    requires k <= |tr| && StageOf(cfg, tr) != Wrong
    ensures StageOf(cfg, tr[..k]) != Wrong
  {
    if k < |tr| {
      PrefixesAreRight(cfg, tr[..|tr| - 1], k);
      assert tr[..|tr| - 1][..k] == tr[..k];
    } else {
      assert tr[..k] == tr;
    }
  }

  /** The mode of the reader: decided by the latest mode command that succeeded. */
  function Emulating(tr: seq<Action>): bool {
    if tr == [] then false
    else
      match tr[|tr| - 1]
      case Control(StartEmu, true, _) => true
      case Control(EndEmu, true, _) => false
      case _ => Emulating(tr[..|tr| - 1])
  }

  predicate On(st: Stage) {
    st.Listening? || st.Event? || st.Owed? || st.Due? || st.Resetting? || st.Stopping? || st == Stuck(true)
  }

  lemma {:induction false} ModeOf(cfg: Config, tr: seq<Action>)
    requires StageOf(cfg, tr) != Wrong
    ensures Emulating(tr) <==> On(StageOf(cfg, tr))
  {
    if tr != [] {
      PrefixesAreRight(cfg, tr, |tr| - 1);
      ModeOf(cfg, tr[..|tr| - 1]);
    }
  }

  // ----- The reader --------------------------------------------------------------------------

  /** A reader that knows nothing but bytes: whether it emulates a card, the ATQ (both bytes) and
      SAK it holds, whether it is silent, and the response APDUs that have arrived. */
  datatype Reader = Reader(emulating: bool, setup: Option<(byte, byte, byte)>, silent: bool, responses: seq<seq<byte>>)

  const NEW_READER: Reader := Reader(false, None, false, [])

  function Obeys(r: Reader, x: Transfer): Reader {
    if !x.ok then r
    else if x.bytes == [0x83, 0x10, 0x01, 0x00] then r.(emulating := true)
    else if x.bytes == [0x83, 0x10, 0x00, 0x00] then r.(emulating := false)
    else if x.bytes == [0x58, 0x8d, 0xcc, 0x00] then r.(silent := true)
    else if |x.bytes| == 6 && x.bytes[..3] == [0x58, 0x8d, 0xe3] then
      r.(setup := Some((x.bytes[3], x.bytes[4], x.bytes[5])))
    else if |x.bytes| > 1 && x.bytes[0] == 0x84 then r.(responses := r.responses + [x.bytes[1..]])
    else r
  }

  function ReaderAfter(xs: seq<Transfer>): Reader {
    if xs == [] then NEW_READER else Obeys(ReaderAfter(xs[..|xs| - 1]), xs[|xs| - 1])
  }

  /** The answers that went out and were taken.  (An empty one is not seen as an answer.) */
  function Delivered(tr: seq<Action>): seq<seq<byte>> {
    if tr == [] then [] else Delivered(tr[..|tr| - 1]) + DeliveredBy(tr[|tr| - 1])
  }

  function DeliveredBy(a: Action): seq<seq<byte>> {
    match a
    case Control(SendRApdu(rapdu), true, _) => if rapdu == [] then [] else [rapdu]
    case _ => []
  }

  predicate Holds(cfg: Config, r: Reader, st: Stage) {
    && (r.emulating <==> On(st))
    && (st != Off && st != Stuck(false) ==>
          r.setup == Some(((cfg.atq / 256) as byte, (cfg.atq % 256) as byte, cfg.sak)))
    && (st == Quiet || On(st) ==> r.silent)
  }

  lemma ReaderAfterOne(xs: seq<Transfer>, x: Transfer)
    ensures ReaderAfter(xs + [x]) == Obeys(ReaderAfter(xs), x)
    ensures ReaderAfter(xs + []) == ReaderAfter(xs)
  {
    assert (xs + [x])[..|xs|] == xs && xs + [] == xs;
  }

  lemma OneObeyed(cfg: Config, r: Reader, st: Stage, a: Action)
    requires Holds(cfg, r, st) && After(cfg, st, a) != Wrong && a.Control?
    ensures var r' := Obeys(r, Transfer(Wire(a.cmd), a.ok, a.rsp));
      Holds(cfg, r', After(cfg, st, a)) && r'.responses == r.responses + DeliveredBy(a)
  {
    var x := Wire(a.cmd);
    match a.cmd {
      case SetAtqSak(_, _) => assert x[..3] == [0x58, 0x8d, 0xe3];
      case BuzzerOff =>
      case StartEmu => assert x[2] == 0x01;
      case EndEmu =>
      case WaitEvent => assert x[1] == 0x00;
      case GetCApdu =>
      case SendRApdu(rapdu) =>
        assert x[0] == 0x84 && |x| == 1 + |rapdu| && (rapdu != [] ==> x[1..] == rapdu);
        assert |x| == 6 ==> x[..3][0] == 0x84;
    }
  }

  lemma OtherKeeps(cfg: Config, r: Reader, st: Stage, a: Action)
    requires Holds(cfg, r, st) && After(cfg, st, a) != Wrong && !a.Control?
    ensures Holds(cfg, r, After(cfg, st, a)) && DeliveredBy(a) == []
  {
  }

  lemma ActionObeyed(cfg: Config, xs: seq<Transfer>, st: Stage, a: Action)
    requires Holds(cfg, ReaderAfter(xs), st) && After(cfg, st, a) != Wrong
    ensures var (r, r') := (ReaderAfter(xs), ReaderAfter(xs + GivenBy(a)));
      Holds(cfg, r', After(cfg, st, a)) && r'.responses == r.responses + DeliveredBy(a)
  {
    if a.Control? {
      ReaderAfterOne(xs, Transfer(Wire(a.cmd), a.ok, a.rsp));
      OneObeyed(cfg, ReaderAfter(xs), st, a);
    } else {
      assert xs + GivenBy(a) == xs;
      OtherKeeps(cfg, ReaderAfter(xs), st, a);
    }
  }

  /** The bytes are understood: in every run the reader, which decodes them by itself, emulates
      exactly when the thread thinks so, with the configured ATQ and SAK and in silence, and the
      answers arrive. */
  lemma {:induction false} ReaderObeys(cfg: Config, tr: seq<Action>)
    requires StageOf(cfg, tr) != Wrong
    ensures var r := ReaderAfter(OutputOf(tr));
      Holds(cfg, r, StageOf(cfg, tr)) && (r.emulating <==> Emulating(tr)) && r.responses == Delivered(tr)
  {
    ModeOf(cfg, tr);
    if tr != [] {
      PrefixesAreRight(cfg, tr, |tr| - 1);
      ReaderObeys(cfg, tr[..|tr| - 1]);
      ActionObeyed(cfg, OutputOf(tr[..|tr| - 1]), StageOf(cfg, tr[..|tr| - 1]), tr[|tr| - 1]);
    }
  }

  /** Reader mode protocol: what is given to the reader fits the mode it is in, and emulation
      begins right after the configured ATQ, SAK and silence were set, while it holds them. */
  lemma ReaderMode(cfg: Config, tr: seq<Action>, i: nat)
    requires i < |tr| && tr[i].Control? && StageOf(cfg, tr) != Wrong
    ensures var (r, x) := (ReaderAfter(OutputOf(tr[..i])), Wire(tr[i].cmd));
      && (x[0] == 0x58 ==> !r.emulating)
      && (x[0] == 0x84 || x == [0x83, 0x10, 0x00, 0x00] || x == [0x83, 0x00, 0x00, 0x64] ==> r.emulating)
      && (x == [0x83, 0x10, 0x01, 0x00] ==>
            && !r.emulating && r.silent
            && r.setup == Some(((cfg.atq / 256) as byte, (cfg.atq % 256) as byte, cfg.sak)))
    ensures tr[i].cmd.StartEmu? ==>
      i >= 2 && Succeeded(tr[i - 1], BuzzerOff) && Succeeded(tr[i - 2], SetAtqSak(cfg.atq, cfg.sak))
  {
    StageBefore(cfg, tr, i);
    ReaderObeys(cfg, tr[..i]);
    StageFits(cfg, StageOf(cfg, tr[..i]), tr[i]);
    if tr[i].cmd.StartEmu? {
      StageBefore(cfg, tr, i - 1);
      Entered(cfg, StageOf(cfg, tr[..i - 1]), tr[i - 1]);
      StageBefore(cfg, tr, i - 2);
      Entered(cfg, StageOf(cfg, tr[..i - 2]), tr[i - 2]);
    }
  }

  predicate Succeeded(a: Action, cmd: Command) {
    a.Control? && a.cmd == cmd && a.ok
  }

  /** The stage at any moment of a run, and the step from it. */
  lemma StageBefore(cfg: Config, tr: seq<Action>, i: nat)
    requires i < |tr| && StageOf(cfg, tr) != Wrong
    ensures StageOf(cfg, tr[..i]) != Wrong && StageOf(cfg, tr[..i + 1]) != Wrong
    ensures StageOf(cfg, tr[..i + 1]) == After(cfg, StageOf(cfg, tr[..i]), tr[i])
    ensures i == 0 ==> StageOf(cfg, tr[..i]) == Off
  {
    PrefixesAreRight(cfg, tr, i + 1);
    PrefixesAreRight(cfg, tr, i);
    Append(cfg, tr[..i], tr[i]);
    assert tr[..i + 1] == tr[..i] + [tr[i]];
  }

  lemma StageFits(cfg: Config, st: Stage, a: Action)
    requires a.Control? && After(cfg, st, a) != Wrong
    ensures var x := Wire(a.cmd);
      && (x[0] == 0x58 ==> !On(st))
      && (x[0] == 0x84 || x == [0x83, 0x10, 0x00, 0x00] || x == [0x83, 0x00, 0x00, 0x64] ==> On(st))
      && (x == [0x83, 0x10, 0x01, 0x00] ==> a.cmd.StartEmu?)
    ensures a.cmd.StartEmu? ==> st == Quiet
  {
    var x := Wire(a.cmd);
    assert a.cmd.StartEmu? ==> x[2] == 0x01;
    assert a.cmd.EndEmu? ==> x[2] == 0x00;
    assert a.cmd.WaitEvent? ==> x[1] == 0x00;
  }

  lemma Entered(cfg: Config, st: Stage, a: Action)
    ensures After(cfg, st, a) == Quiet ==> st == Configured && Succeeded(a, BuzzerOff)
    ensures After(cfg, st, a) == Configured ==> Succeeded(a, SetAtqSak(cfg.atq, cfg.sak))
  {
  }

  function RetrievedBy(a: Action): seq<seq<byte>> {
    match a
    case Control(GetCApdu, true, rsp) => if Skips(rsp) then [] else [if rsp == [] then [] else rsp[1..]]
    case _ => []
  }

  function ExchangedBy(a: Action): seq<(seq<byte>, seq<byte>)> {
    if a.Exchange? then [(a.apdu, Answer(a.ok, a.rdata))] else []
  }

  function SentBy(a: Action): seq<seq<byte>> {
    if a.Control? && a.cmd.SendRApdu? then [a.cmd.rapdu] else []
  }

  /** The command APDUs the reader handed over with a status that is not skipped. */
  function Retrieved(tr: seq<Action>): seq<seq<byte>> {
    if tr == [] then [] else Retrieved(tr[..|tr| - 1]) + RetrievedBy(tr[|tr| - 1])
  }

  /** The exchanges with card applications: the APDU, and what the reader is to be told. */
  function Exchanges(tr: seq<Action>): seq<(seq<byte>, seq<byte>)> {
    if tr == [] then [] else Exchanges(tr[..|tr| - 1]) + ExchangedBy(tr[|tr| - 1])
  }

  /** The response APDUs given to the reader. */
  function Sent(tr: seq<Action>): seq<seq<byte>> {
    if tr == [] then [] else Sent(tr[..|tr| - 1]) + SentBy(tr[|tr| - 1])
  }

  /** The APDU, or the answer, the thread has in hand. */
  function ApduInHand(st: Stage): seq<seq<byte>> {
    if st.Owed? then [st.apdu] else []
  }

  function AnswerInHand(st: Stage): seq<seq<byte>> {
    if st.Due? then [st.answer] else []
  }

  function Firsts(xs: seq<(seq<byte>, seq<byte>)>): seq<seq<byte>> {
    seq(|xs|, (i: nat) requires i < |xs| => xs[i].0)
  }

  function Seconds(xs: seq<(seq<byte>, seq<byte>)>): seq<seq<byte>> {
    seq(|xs|, (i: nat) requires i < |xs| => xs[i].1)
  }

  /** APDU conservation: at every moment of a run the APDUs retrieved are, in order, those
      exchanged and the one in hand, and the answers of the exchanges are, in order, those sent
      and the one in hand. */
  lemma {:induction false} ApdusConserved(cfg: Config, tr: seq<Action>)
    requires StageOf(cfg, tr) != Wrong
    ensures Retrieved(tr) == Firsts(Exchanges(tr)) + ApduInHand(StageOf(cfg, tr))
    ensures Seconds(Exchanges(tr)) == Sent(tr) + AnswerInHand(StageOf(cfg, tr))
  {
    if tr != [] {
      var past, a := tr[..|tr| - 1], tr[|tr| - 1];
      PrefixesAreRight(cfg, tr, |tr| - 1);
      ApdusConserved(cfg, past);
      StepConserves(cfg, StageOf(cfg, past), a);
      FirstsSeconds(Exchanges(past), ExchangedBy(a));
      var st, st' := StageOf(cfg, past), StageOf(cfg, tr);
      Carry(Retrieved(past), Firsts(Exchanges(past)), ApduInHand(st),
            RetrievedBy(a), Firsts(ExchangedBy(a)), ApduInHand(st'));
      Carry(Seconds(Exchanges(past)), Sent(past), AnswerInHand(st),
            Seconds(ExchangedBy(a)), SentBy(a), AnswerInHand(st'));
    }
  }

  lemma FirstsSeconds(xs: seq<(seq<byte>, seq<byte>)>, ys: seq<(seq<byte>, seq<byte>)>)
    ensures Firsts(xs + ys) == Firsts(xs) + Firsts(ys) && Seconds(xs + ys) == Seconds(xs) + Seconds(ys)
  {
  }

  lemma Carry<T>(ins: seq<T>, outs: seq<T>, held: seq<T>, more: seq<T>, out: seq<T>, held': seq<T>)
    requires ins == outs + held && held + more == out + held'
    ensures ins + more == (outs + out) + held'
  {
    assert (outs + held) + more == outs + (held + more);
    assert outs + (out + held') == (outs + out) + held';
  }

  lemma StepConserves(cfg: Config, st: Stage, a: Action)
    requires After(cfg, st, a) != Wrong
    ensures ApduInHand(st) + RetrievedBy(a) == Firsts(ExchangedBy(a)) + ApduInHand(After(cfg, st, a))
    ensures AnswerInHand(st) + Seconds(ExchangedBy(a)) == SentBy(a) + AnswerInHand(After(cfg, st, a))
  {
  }

  /** The end of a run finds emulation off, unless ending it is what failed; and every APDU
      retrieved was exchanged and every answer given to the reader, one to one and in order. */
  lemma RunEnds(cfg: Config, tr: seq<Action>)
    requires StageOf(cfg, tr) == Done || StageOf(cfg, tr).Stuck?
    ensures Emulating(tr) ==> tr[|tr| - 1].Control? && tr[|tr| - 1].cmd == EndEmu && !tr[|tr| - 1].ok
    ensures Retrieved(tr) == Firsts(Exchanges(tr)) && Sent(tr) == Seconds(Exchanges(tr))
  {
    ModeOf(cfg, tr);
    ApdusConserved(cfg, tr);
  }

  class Emulator {
    const cfg: Config
    const comm: CommThread
    const start: Daemon
    var shouldCancel: bool
    var trace: seq<Action>
    var output: seq<Transfer>  // the control transfers with the reader

    constructor (cfg: Config, comm: CommThread)
      ensures this.cfg == cfg && this.comm == comm && trace == [] && !shouldCancel && Recorded()
    {
      this.cfg, this.comm, this.start := cfg, comm, comm.Snapshot();
      shouldCancel, trace, output := false, [], [];
    }

    ghost function Stage(): Stage
      reads this
    {
      StageOf(cfg, trace)
    }

    /** The trace says what the reader was given and what became of the daemon. */
    ghost predicate Recorded()
      reads this, comm, comm.net
    {
      && output == OutputOf(trace)
      && Follows(comm.net.reliable, start, trace, comm.Snapshot())
    }

    /** One more action of the thread, already done. */
    method Note(a: Action, ghost before: Daemon)
      requires output == OutputOf(trace) && Follows(comm.net.reliable, start, trace, before)
      requires if a.Control? || a.Delay? then before == comm.Snapshot()
               else a.before == before && a.after == comm.Snapshot() && IsDone(comm.net.reliable, a)
      modifies this`trace, this`output
      ensures trace == old(trace) + [a]
      ensures output == old(output) + GivenBy(a)
      ensures Recorded() && Stage() == After(cfg, old(Stage()), a)
    {
      Append(cfg, trace, a);
      AppendFollows(comm.net.reliable, start, trace, a, before, comm.Snapshot());
      trace := trace + [a];
      if a.Control? {
        output := output + [Transfer(Wire(a.cmd), a.ok, a.rsp)];
      }
    }

    /** Between two calls into it, the communications thread may take any number of turns. */
    method LetServe()
      requires Recorded() && comm.Owns({})
      requires Stage().Listening? || Stage().Event? || Stage().Owed? || Stage().Due? || Stage().Stopping?
      modifies this`trace, this`output, comm`applicationRegistry, comm.net
      ensures Recorded() && comm.Owns({}) && Stage() == old(Stage()) && output == old(output)
      ensures comm.selectedApplication == old(comm.selectedApplication)
      ensures trace == old(trace) + [Meanwhile(old(comm.Snapshot()), comm.Snapshot())]
    {
      var before, turns: nat := comm.Snapshot(), *;
      comm.Serve(turns);
      assert comm.Owns({});
      Note(Meanwhile(before, comm.Snapshot()), before);
    }

    /** `transceive_control`: the reader may answer anything that fits the buffer, or fail.
        A report of an event names the event in its second byte. */
    method TransceiveControl(cmd: Command) returns (ok: bool, rdata: seq<byte>)
      requires Recorded()
      modifies this`trace, this`output
      ensures trace == old(trace) + [Control(cmd, ok, rdata)] && Recorded()
      ensures output == old(output) + [Transfer(Wire(cmd), ok, rdata)]
      ensures Stage() == AfterControl(cfg, old(Stage()), cmd, ok, rdata)
      ensures |rdata| <= READER_BUFFER && (cmd.WaitEvent? ==> |rdata| >= 2)
    {
      ok, rdata := *, *;
      if |rdata| > READER_BUFFER {
        rdata := rdata[..READER_BUFFER];
      }
      if cmd.WaitEvent? && |rdata| < 2 {
        rdata := [0x00, 0x00];
      }
      Note(Control(cmd, ok, rdata), comm.Snapshot());
    }

    /** ATQ and SAK, then the buzzer, then emulation: as far as the reader goes along. */
    method EnterEmulation() returns (ok: bool)
      requires Recorded() && Stage() == Off
      modifies this`trace, this`output
      ensures Recorded()
      ensures Stage() == (if ok then Listening else Stuck(false)) && old(trace) <= trace
    {
      var rdata;
      ok, rdata := TransceiveControl(SetAtqSak(cfg.atq, cfg.sak));
      if !ok {
        return;
      }
      ok, rdata := TransceiveControl(BuzzerOff);
      if !ok {
        return;
      }
      ok, rdata := TransceiveControl(StartEmu);
    }

    /** Waiting for an event: anybody may cancel meanwhile, and somebody must once `left` polls
        are used up. */
    method Poll(left: nat) returns (aborted: bool, code: byte, left': nat)
      requires Recorded() && Stage() == Listening && comm.Owns({})
      modifies this`trace, this`output, this`shouldCancel, comm`applicationRegistry, comm.net
      ensures Recorded() && comm.Owns({})
      ensures aborted ==> Stage() == Stopping && shouldCancel
      ensures !aborted ==> Stage() == if code in {0x01, 0x02, 0x04} then Event(code) else Listening
      ensures !aborted && !shouldCancel ==> code != 0x00 && left' < left
    {
      aborted, left' := false, left;
      while true
        invariant Recorded() && Stage() == Listening && comm.Owns({})
        decreases left'
      {
        LetServe();
        var ok, rdata := TransceiveControl(WaitEvent);
        if !ok {
          aborted, shouldCancel, code := true, true, 0x00;
          return;
        }
        code := rdata[1];
        var cancelled: bool := *;
        if cancelled || left' == 0 {
          shouldCancel := true;
        }
        if code != 0x00 || shouldCancel {
          left' := if left' > 0 then left' - 1 else 0;
          return;
        }
        left' := left' - 1;
      }
    }

    /** A selection: every application is powered up. */
    method Select()
      requires Recorded() && Stage() == Event(0x01) && comm.Owns({})
      modifies this`trace, this`output, comm`selectedApplication, comm.net
      ensures Recorded() && comm.Owns({})
      ensures trace == old(trace) + [PoweredUpAll(old(comm.Snapshot()), comm.Snapshot())] && Stage() == Listening
    {
      var before := comm.Snapshot();
      comm.PowerEvent(POWER_UP);
      Note(PoweredUpAll(before, comm.Snapshot()), before);
    }

    /** A deselection: every application is powered down, and the emulation is reset when one
        of them was selected. */
    method Deselect() returns (ok: bool)
      requires Recorded() && Stage() == Event(0x04) && comm.Owns({})
      modifies this`trace, this`output, comm`selectedApplication, comm.net
      ensures Recorded() && comm.Owns({})
      ensures ok ==> Stage() == Listening
      ensures !ok ==> Stage().Stuck? && old(comm.selectedApplication) != NO_APP_SELECTED
      ensures old(trace) + [PoweredDownAll(old(comm.Snapshot()), comm.Snapshot())] <= trace
      ensures old(comm.selectedApplication) == NO_APP_SELECTED <==> |trace| == |old(trace)| + 1
    {
      var before, selected := comm.Snapshot(), comm.ApplicationSelected();
      comm.PowerEvent(POWER_DOWN);
      Note(PoweredDownAll(before, comm.Snapshot()), before);
      ok := true;
      if selected {
        var rdata;
        ok, rdata := TransceiveControl(EndEmu);
        if ok {
          ok := EnterEmulation();
        }
      }
    }

    /** A command APDU: it is retrieved, unless the reader's status says there is none, and if it
        is, it is exchanged and answered. */
    method AnswerApdu()
      requires Recorded() && Stage() == Event(0x02) && comm.Owns({})
      modifies this`trace, this`output, this`shouldCancel
      modifies comm`applicationRegistry, comm`selectedApplication, comm.net
      ensures Recorded() && comm.Owns({})
      ensures Stage() == Listening || (Stage() == Stopping && shouldCancel)
      ensures old(trace) < trace && Handles(trace[|old(trace)|..])
    {
      var ok, rdata := TransceiveControl(GetCApdu);
      if !ok {
        shouldCancel := true;
        return;
      }
      if Skips(rdata) {
        if Aborts(rdata) {
          shouldCancel := true;
        }
        return;
      }
      SubstrIsTail(rdata, 1);
      HandleApdu(Substr(rdata, 1, SIZE_T_MAX));
      HandlesRest(old(trace), Control(GetCApdu, true, rdata), trace);
    }

    /** The APDU in hand is exchanged, and the outcome given to the reader. */
    method HandleApdu(apdu: seq<byte>)
      requires Recorded() && Stage() == Owed(apdu) && |apdu| < READER_BUFFER && comm.Owns({})
      modifies this`trace, this`output, this`shouldCancel
      modifies comm`applicationRegistry, comm`selectedApplication, comm.net
      ensures Recorded() && comm.Owns({})
      ensures Stage() == Listening || (Stage() == Stopping && shouldCancel)
      ensures old(trace) <= trace && Completes(trace[|old(trace)|..], apdu)
    {
      var sendToIfd;
      ghost var a, b, c;
      sendToIfd, a, b, c := ExchangeAmidTurns(apdu);
      Respond(sendToIfd);
      Trail(old(trace), a, b, c, Pauses(cfg, sendToIfd), trace[|trace| - 1], apdu);
    }

    method ExchangeAmidTurns(apdu: seq<byte>)
      returns (sendToIfd: seq<byte>, ghost a: Action, ghost b: Action, ghost c: Action)
      requires Recorded() && Stage() == Owed(apdu) && |apdu| < READER_BUFFER && comm.Owns({})
      modifies this`trace, this`output, comm`applicationRegistry, comm`selectedApplication, comm.net
      ensures Recorded() && comm.Owns({})
      ensures trace == old(trace) + [a] + [b] + [c]
      ensures b.Exchange? && b.apdu == apdu && sendToIfd == Answer(b.ok, b.rdata)
      ensures Stage() == Due(sendToIfd, Delayed(cfg, sendToIfd)) && |sendToIfd| <= MAX_FRAME
    {
      LetServe();
      a := trace[|old(trace)|];
      sendToIfd := ExchangeApdu(apdu);
      b := trace[|old(trace)| + 1];
      LetServe();
      c := trace[|old(trace)| + 2];
    }

    method ExchangeApdu(apdu: seq<byte>) returns (sendToIfd: seq<byte>)
      requires Recorded() && Stage() == Owed(apdu) && |apdu| < READER_BUFFER && comm.Owns({})
      modifies this`trace, this`output, comm`applicationRegistry, comm`selectedApplication, comm.net
      ensures Recorded() && comm.Owns({})
      ensures exists ok, rdata ::
        && trace == old(trace) + [Exchange(apdu, ok, rdata, old(comm.Snapshot()), comm.Snapshot())]
        && sendToIfd == (if ok then rdata else [0x6f, 0x00]) == Answer(ok, rdata)
      ensures Stage() == Due(sendToIfd, Delayed(cfg, sendToIfd)) && |sendToIfd| <= MAX_FRAME
    {
      var before := comm.Snapshot();
      var ok, rdata := comm.Transceive(apdu);
      Note(Exchange(apdu, ok, rdata, before, comm.Snapshot()), before);
      sendToIfd := if ok then rdata else SW_NO_DIAGNOSIS;
    }

    /** The answer goes to the reader, delayed exactly if the configuration says so. */
    method Respond(sendToIfd: seq<byte>)
      requires Recorded() && Stage() == Due(sendToIfd, Delayed(cfg, sendToIfd)) && |sendToIfd| <= MAX_FRAME
      modifies this`trace, this`output, this`shouldCancel
      ensures Recorded()
      ensures Stage() == Listening || (Stage() == Stopping && shouldCancel)
      ensures old(shouldCancel) ==> shouldCancel
      ensures exists ok, rdata ::
        trace == old(trace) + Pauses(cfg, sendToIfd) + [Control(SendRApdu(sendToIfd), ok, rdata)]
    {
      Pause(sendToIfd);
      var ok, rdata := TransceiveControl(SendRApdu(sendToIfd));
      if !ok {
        shouldCancel := true;
      }
    }

    method Pause(sendToIfd: seq<byte>)
      requires Recorded() && Stage() == Due(sendToIfd, Delayed(cfg, sendToIfd)) && |sendToIfd| <= MAX_FRAME
      modifies this`trace, this`output
      ensures Recorded() && Stage() == Due(sendToIfd, false)
      ensures trace == old(trace) + Pauses(cfg, sendToIfd)
    {
      DelayTest(sendToIfd);
      if cfg.cmdDelay != 0 {
        var last := Substr(sendToIfd, (|sendToIfd| - 2) % (SIZE_T_MAX + 1), SIZE_T_MAX);
        if !cfg.delaySuccessOnly || last == [0x90, 0x00] {
          Note(Delay, comm.Snapshot());
        }
      }
    }

    /** The switch over the event; everything else the reader reports needs no answer. */
    method HandleEvent(code: byte) returns (ok: bool)
      requires Recorded() && comm.Owns({})
      requires Stage() == if code in {0x01, 0x02, 0x04} then Event(code) else Listening
      modifies this`trace, this`output, this`shouldCancel
      modifies comm`applicationRegistry, comm`selectedApplication, comm.net
      ensures Recorded() && comm.Owns({})
      ensures if ok then Stage() == Listening || (Stage() == Stopping && shouldCancel) else Stage().Stuck?
    {
      LetServe();
      ok := true;
      if code == 0x01 {
        Select();
      } else if code == 0x04 {
        ok := Deselect();
      } else if code == 0x02 {
        AnswerApdu();
      }
    }

    /** One turn of the main loop; a turn that is cancelled while it waits does nothing else. */
    method Turn(left: nat) returns (ok: bool, left': nat)
      requires Recorded() && Stage() == Listening && comm.Owns({})
      modifies this`trace, this`output, this`shouldCancel
      modifies comm`applicationRegistry, comm`selectedApplication, comm.net
      ensures Recorded() && comm.Owns({})
      ensures if ok then Stage() == Listening || Stage() == Stopping || Stage().Event? else Stage().Stuck?
      ensures ok && !shouldCancel ==> Stage() == Listening && left' < left
    {
      var aborted, code;
      aborted, code, left' := Poll(left);
      ok := true;
      if !(aborted || shouldCancel) {
        ok := HandleEvent(code);
      }
    }

    /** `run`, once the reader is connected.  `rounds` bounds the polls of one run. */
    method Run(rounds: nat)
      requires Recorded() && trace == [] && comm.Owns({})
      modifies this`trace, this`output, this`shouldCancel
      modifies comm`applicationRegistry, comm`selectedApplication, comm.net
      ensures Recorded() && comm.Owns({})
      ensures StageOf(cfg, trace) == Done || StageOf(cfg, trace).Stuck?
    {
      var ok := EnterEmulation();
      var left := rounds;
      while ok && !shouldCancel
        invariant Recorded() && comm.Owns({})
        invariant if ok then Stage() == Listening || Stage() == Stopping || Stage().Event? else Stage().Stuck?
        invariant ok && !shouldCancel ==> Stage() == Listening
        decreases ok && !shouldCancel, left
      {
        ok, left := Turn(left);
      }
      if ok {
        var rdata;
        ok, rdata := TransceiveControl(EndEmu);
      }
    }
  }
}

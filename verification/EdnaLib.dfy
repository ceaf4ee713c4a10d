/** The client library (edna_lib_export.cpp) over byte streams. */
module EdnaLib {
  import opened Bytes
  import opened Protocol
  import opened Framing
  import opened Net
  import opened Transport

  datatype Rv =
    | ERV_OK
    | ERV_ALREADY_INITIALISED
    | ERV_NOT_INITIALISED
    | ERV_CONNECT_FAILED
    | ERV_DISCONNECTED
    | ERV_NOT_CONNECTED
    | ERV_VERSION_MISMATCH
    | ERV_ALREADY_CONNECTED
    | ERV_ALREADY_REGISTERED

  /** What `edna_lib_connect` makes of the daemon's side of the handshake. */
  function ConnectResult(stream: seq<byte>, aid: seq<byte>): Rv {
    match Unframe(stream)
    case None => ERV_DISCONNECTED
    case Some((ver, rest)) =>
      if ver != [API_VERSION] then ERV_VERSION_MISMATCH
      else if |aid| >= MAX_FRAME then ERV_DISCONNECTED
      else
        match Unframe(rest)
        case None => ERV_DISCONNECTED
        case Some((answer, _)) => if answer == [EDNA_OK] then ERV_OK else ERV_ALREADY_REGISTERED
  }

  /** The first message of the stream is the byte `b`, and the second one. */
  predicate FirstIs(stream: seq<byte>, b: byte) {
    Unframe(stream).Some? && Unframe(stream).value.0 == [b]
  }

  predicate SecondIs(stream: seq<byte>, b: byte) {
    Unframe(stream).Some? && FirstIs(Unframe(stream).value.1, b)
  }

  /** The responses owed for a sequence of commands, each given what was processed before it. */
  function Replies(process: seq<Input> -> Rapdu, hist: seq<Input>, cmds: seq<Msg>): seq<Msg>
    decreases |cmds|
  {
    if cmds == [] then []
    else [ReplyTo(process, hist, cmds[0])] + Replies(process, HistoryAfter(hist, cmds[0]), cmds[1..])
  }

  function Processed(hist: seq<Input>, cmds: seq<Msg>): seq<Input>
    decreases |cmds|
  {
    if cmds == [] then hist else Processed(HistoryAfter(hist, cmds[0]), cmds[1..])
  }

  lemma {:induction false} OneMore(process: seq<Input> -> Rapdu, hist: seq<Input>, cmds: seq<Msg>, cmd: Msg)
    ensures Replies(process, hist, cmds + [cmd])
         == Replies(process, hist, cmds) + [ReplyTo(process, Processed(hist, cmds), cmd)]
    ensures Processed(hist, cmds + [cmd]) == HistoryAfter(Processed(hist, cmds), cmd)
    decreases |cmds|
  {
    if cmds == [] {
      assert [cmd][1..] == [];
    } else {
      OneMore(process, HistoryAfter(hist, cmds[0]), cmds[1..], cmd);
      assert (cmds + [cmd])[1..] == cmds[1..] + [cmd];
    }
  }

  /** One response per command, the i-th to the i-th command. */
  lemma {:induction false} RepliesOneToOne(process: seq<Input> -> Rapdu, hist: seq<Input>, cmds: seq<Msg>, i: nat)
    requires i < |cmds|
    ensures |Replies(process, hist, cmds)| == |cmds|
    ensures Replies(process, hist, cmds)[i] == ReplyTo(process, Processed(hist, cmds[..i]), cmds[i])
    decreases |cmds|
  {
    if i == 0 {
      if |cmds| > 1 {
        RepliesOneToOne(process, HistoryAfter(hist, cmds[0]), cmds[1..], 0);
      }
    } else {
      RepliesOneToOne(process, HistoryAfter(hist, cmds[0]), cmds[1..], i - 1);
      assert cmds[..i][1..] == cmds[1..][..i - 1];
    }
  }

  /** All of `cmds` were taken from `stream`, `rest` is what is left of it, and exactly their
      responses were added to `written`. */
  predicate InOrder(process: seq<Input> -> Rapdu, hist0: seq<Input>, cmds: seq<Msg>, hist: seq<Input>,
                    stream: seq<byte>, rest: seq<byte>, written: seq<byte>, tx: seq<byte>) {
    && stream == Wire(cmds) + rest && [] !in cmds
    && tx == written + Wire(Replies(process, hist0, cmds))
    && hist == Processed(hist0, cmds)
  }

  lemma InOrderOneMore(process: seq<Input> -> Rapdu, hist0: seq<Input>, cmds: seq<Msg>, hist: seq<Input>,
                       stream: seq<byte>, rest: seq<byte>, written: seq<byte>, tx: seq<byte>,
                       cmd: Msg, rest2: seq<byte>)
    requires InOrder(process, hist0, cmds, hist, stream, rest, written, tx)
    requires Unframe(rest) == Some((cmd, rest2)) && cmd != []
    ensures |rest2| < |rest|
    ensures InOrder(process, hist0, cmds + [cmd], HistoryAfter(hist, cmd), stream, rest2, written,
                    tx + Frame(ReplyTo(process, hist, cmd)))
  {
    var reply := ReplyTo(process, hist, cmd);
    FrameUnframe(rest);
    OneMore(process, hist0, cmds, cmd);
    SendAppends(cmds, cmd);
    SendAppends(Replies(process, hist0, cmds), reply);
    Assoc(Wire(cmds), Frame(cmd), rest2);
    Assoc(written, Wire(Replies(process, hist0, cmds)), Frame(reply));
  }

  // ----- Cancelling the loop -----------------------------------------------------------------

  /** When the first cancel arrives in a run of the event loop: never; while the loop waits for
      a command, after it has answered so many; or while the command after those is in progress,
      that is, being received, processed or answered. */
  datatype Cancellation = Never | Waiting(answered: nat) | Busy(answered: nat)

  /** How one round of the loop ends. */
  datatype Outcome = Stopped | Answered | Lost

  /** How many commands are answered at most: a command in progress is still completed. */
  function Limit(cancel: Cancellation): Option<nat> {
    match cancel
    case Never => None
    case Waiting(answered) => Some(answered)
    case Busy(answered) => Some(answered + 1)
  }

  /** How many commands a stream holds before its end, or before an empty message. */
  function Answerable(stream: seq<byte>): nat
    decreases |stream|
  {
    match Unframe(stream)
    case None => 0
    case Some((cmd, rest)) => if cmd == [] then 0 else 1 + Answerable(rest)
  }

  /** What the loop returns on a reliable network. */
  function LoopResult(stream: seq<byte>, cancel: Cancellation): Rv {
    match Limit(cancel)
    case None => ERV_DISCONNECTED
    case Some(limit) => if limit <= Answerable(stream) then ERV_OK else ERV_DISCONNECTED
  }

  lemma {:induction false} AnswerableOf(cmds: seq<Msg>, rest: seq<byte>)
    requires [] !in cmds
    ensures Answerable(Wire(cmds) + rest) == |cmds| + Answerable(rest)
  {
    if cmds == [] {
      assert Wire(cmds) + rest == rest;
    } else {
      AnswerableOf(cmds[1..], rest);
      UnframeFrame(cmds[0], Wire(cmds[1..]) + rest);
      assert Wire(cmds) + rest == Frame(cmds[0]) + (Wire(cmds[1..]) + rest);
    }
  }

  /** The commands answered settle the result: at the limit, or short of it with no more to come. */
  lemma LoopOutcome(stream: seq<byte>, cmds: seq<Msg>, rest: seq<byte>, cancel: Cancellation)
    requires stream == Wire(cmds) + rest && [] !in cmds
    ensures Limit(cancel) == Some(|cmds|) ==> LoopResult(stream, cancel) == ERV_OK
    ensures (Limit(cancel).Some? ==> |cmds| < Limit(cancel).value) && Answerable(rest) == 0 ==>
      LoopResult(stream, cancel) == ERV_DISCONNECTED && |cmds| == Answerable(stream)
  {
    AnswerableOf(cmds, rest);
  }

  class EdnaLib {
    const net: Net
    var initialised: bool
    var connected: bool
    var mustCancel: bool
    var daemonSocket: int
    var history: seq<Input>  // the callbacks invoked so far, with their inputs

    /** The library holds exactly one open socket if it is connected and none otherwise, and has
        never closed a number it did not hold. */
    ghost predicate Sound()
      reads this, net
    {
      && net.Valid() && net.stray == 0
      && net.open == (if connected then {daemonSocket} else {})
    }

    /** What the daemon will send on the connection, if there is one. */
    function Incoming(): seq<byte>
      reads this, net
    {
      if connected && daemonSocket in net.rx then net.rx[daemonSocket] else []
    }

    constructor (net: Net)
      requires net.Valid() && net.open == {} && net.stray == 0
      ensures Sound() && this.net == net
      ensures !initialised && !connected && !mustCancel && daemonSocket == -1 && history == []
    {
      this.net := net;
      initialised, connected, mustCancel, daemonSocket, history := false, false, false, -1, [];
    }

    /** Initialising leaks the socket of a connection made before, and nothing else does. */
    method Init() returns (rv: Rv)
      requires Sound()
      modifies this`initialised, this`connected, this`daemonSocket
      ensures rv == if old(initialised) then ERV_ALREADY_INITIALISED else ERV_OK
      ensures initialised
      ensures old(initialised) ==> connected == old(connected) && daemonSocket == old(daemonSocket)
      ensures !old(initialised) ==> !connected && daemonSocket == -1
      ensures Sound() <==> old(initialised) || !old(connected)
    {
      if initialised {
        return ERV_ALREADY_INITIALISED;
      }
      initialised, connected, daemonSocket := true, false, -1;
      rv := ERV_OK;
    }

    method Uninit() returns (rv: Rv)
      requires Sound()
      modifies this`initialised, this`connected, this`daemonSocket, net
      ensures Sound() && !initialised
      ensures rv == if old(initialised) then ERV_OK else ERV_NOT_INITIALISED
      ensures old(initialised) ==> !connected && daemonSocket == -1
      ensures !old(initialised) ==> connected == old(connected) && daemonSocket == old(daemonSocket) && unchanged(net)
    {
      if !initialised {
        return ERV_NOT_INITIALISED;
      }
      if daemonSocket >= 0 && connected {
        net.Close(daemonSocket);
        connected := false;
      }
      initialised, connected, daemonSocket := false, false, -1;
      rv := ERV_OK;
    }

    /** `send_to_daemon`: 0 when sent, -1 when refused with nothing done, -2 when the connection
        broke and has been closed. */
    method SendToDaemon(tx: seq<byte>) returns (rc: int)
      requires Sound()
      modifies this`connected, this`daemonSocket, net
      ensures Sound() && net.rx == old(net.rx) && net.patience == old(net.patience)
      ensures Appends(old(net.tx), net.tx, old(daemonSocket))
      ensures rc == 0 ==>
        && connected && old(connected) && daemonSocket == old(daemonSocket) && |tx| <= MAX_FRAME
        && net.tx == old(net.tx)[daemonSocket := old(net.tx[daemonSocket]) + Frame(tx)]
      ensures rc == -1 ==>
        && connected == old(connected) && daemonSocket == old(daemonSocket) && unchanged(net)
        && (!connected || |tx| > MAX_FRAME)
      ensures rc == -2 ==> old(connected) && !connected && daemonSocket == -1 && |tx| <= MAX_FRAME
      ensures rc == 0 || rc == -1 || rc == -2
      ensures net.reliable && old(connected) && |tx| <= MAX_FRAME ==> rc == 0
    {
      if !connected || daemonSocket < 0 {
        return -1;
      }
      if |tx| > MAX_FRAME {
        return -1;
      }
      var ok := SendFrame(net, daemonSocket, tx);
      if !ok {
        net.Close(daemonSocket);
        connected, daemonSocket := false, -1;
        return -2;
      }
      rc := 0;
    }

    /** `recv_from_daemon`: 0 when exactly the next message was received, -1 when not connected,
        -2 when the connection broke and has been closed. */
    method RecvFromDaemon() returns (rc: int, rx: Msg)
      requires Sound()
      modifies this`connected, this`daemonSocket, net
      ensures Sound() && net.tx == old(net.tx) && net.patience <= old(net.patience)
      ensures OnlyAt(old(net.rx), net.rx, old(daemonSocket))
      ensures rc == 0 ==>
        && connected && old(connected) && daemonSocket == old(daemonSocket)
        && Unframe(old(net.rx[daemonSocket])) == Some((rx, net.rx[daemonSocket]))
      ensures rc == -1 ==> !old(connected) && !connected && daemonSocket == old(daemonSocket) && unchanged(net)
      ensures rc == -2 ==> old(connected) && !connected && daemonSocket == -1
      ensures rc == 0 || rc == -1 || rc == -2
      ensures net.reliable && old(connected) && Unframe(old(net.rx[daemonSocket])).Some? ==> rc == 0
    {
      rx := [];
      if !connected || daemonSocket < 0 {
        return -1, [];
      }
      var ok;
      ok, rx := ReceiveFrame(net, daemonSocket);
      if !ok {
        net.Close(daemonSocket);
        connected, daemonSocket := false, -1;
        return -2, [];
      }
      rc := 0;
    }

    /** The layered close of the callers: it closes the socket if the callee has not. */
    method Drop()
      requires Sound() && (connected || daemonSocket == -1)
      modifies this`connected, this`daemonSocket, net
      ensures Sound() && !connected && daemonSocket == -1
      ensures net.rx == old(net.rx) && net.tx == old(net.tx) && net.patience == old(net.patience)
    {
      net.Close(daemonSocket);
      connected, daemonSocket := false, -1;
    }

    /** `edna_lib_connect`: connected afterwards exactly if it returns ERV_OK (or was before). */
    method Connect(aid: seq<byte>) returns (rv: Rv)
      requires Sound()
      modifies this`connected, this`daemonSocket, net
      ensures Sound() && initialised == old(initialised)
      ensures old(connected) ==>
        rv == ERV_ALREADY_CONNECTED && connected && daemonSocket == old(daemonSocket) && unchanged(net)
      ensures !old(connected) ==> (rv == ERV_OK <==> connected) && (rv != ERV_OK ==> daemonSocket == -1)
      ensures rv == ERV_OK ==>
        |aid| < MAX_FRAME && net.tx[daemonSocket] == Frame([GET_API_VERSION]) + Frame([REGISTER_AID] + aid)
    {
      if connected {
        return ERV_ALREADY_CONNECTED;
      }
      daemonSocket := net.Open();
      if daemonSocket < 0 {
        daemonSocket := -1;
        return ERV_CONNECT_FAILED;
      }
      var accepted: bool := *;
      if !accepted {
        net.Close(daemonSocket);
        daemonSocket := -1;
        return ERV_CONNECT_FAILED;
      }
      connected := true;
      rv := Negotiate(aid);
    }

    /** `edna_lib_connect` from the point where the socket is connected. */
    method Negotiate(aid: seq<byte>) returns (rv: Rv)
      requires Sound() && connected
      modifies this`connected, this`daemonSocket, net
      ensures Sound() && (rv == ERV_OK <==> connected)
      ensures rv != ERV_OK ==> daemonSocket == -1
      ensures rv == ConnectResult(old(net.rx[daemonSocket]), aid) || (!net.reliable && rv == ERV_DISCONNECTED)
      ensures rv == ERV_OK ==>
        && daemonSocket == old(daemonSocket) && |aid| < MAX_FRAME
        && net.tx[daemonSocket] == old(net.tx[daemonSocket]) + Frame([GET_API_VERSION]) + Frame([REGISTER_AID] + aid)
      ensures rv == ERV_OK ==> FirstIs(old(net.rx[daemonSocket]), 0x01) && SecondIs(old(net.rx[daemonSocket]), 0x00)
      ensures rv == ERV_VERSION_MISMATCH ==>
        && Unframe(old(net.rx[daemonSocket])).Some? && !FirstIs(old(net.rx[daemonSocket]), 0x01)
        && net.tx == old(net.tx)[old(daemonSocket) := old(net.tx[daemonSocket]) + [0x00, 0x01, 0x01]]
      ensures net.reliable && Unframe(old(net.rx[daemonSocket])).Some? && !FirstIs(old(net.rx[daemonSocket]), 0x01) ==>
        rv == ERV_VERSION_MISMATCH
    {
      assert Frame([GET_API_VERSION]) == [0x00, 0x01, 0x01];
      var rc := SendToDaemon([GET_API_VERSION]);
      if rc != 0 {
        Drop();
        return ERV_DISCONNECTED;
      }
      var apiVersionInfo;
      rc, apiVersionInfo := RecvFromDaemon();
      if rc != 0 {
        Drop();
        return ERV_DISCONNECTED;
      }
      if |apiVersionInfo| != 1 || apiVersionInfo[0] != API_VERSION {
        Drop();
        return ERV_VERSION_MISMATCH;
      }
      assert apiVersionInfo == [API_VERSION];
      rc := SendToDaemon([REGISTER_AID] + aid);
      if rc != 0 {
        Drop();
        return ERV_DISCONNECTED;
      }
      var registerAidRv;
      rc, registerAidRv := RecvFromDaemon();
      if rc != 0 {
        Drop();
        return ERV_DISCONNECTED;
      }
      if |registerAidRv| != 1 || registerAidRv[0] != EDNA_OK {
        Drop();
        return ERV_ALREADY_REGISTERED;
      }
      assert registerAidRv == [EDNA_OK];
      rv := ERV_OK;
    }

    method Disconnect() returns (rv: Rv)
      requires Sound()
      modifies this`connected, this`daemonSocket, net
      ensures Sound() && !connected
      ensures rv == if old(connected) then ERV_OK else ERV_NOT_CONNECTED
      ensures daemonSocket == old(daemonSocket) || (daemonSocket == -1 && !net.reliable)
      ensures net.reliable && old(connected) ==>
        net.tx == old(net.tx)[old(daemonSocket) := old(net.tx[daemonSocket]) + [0x00, 0x01, 0x03]]
    {
      if !connected {
        return ERV_NOT_CONNECTED;
      }
      assert Frame([DISCONNECT]) == [0x00, 0x01, 0x03];
      var _ := SendToDaemon([DISCONNECT]);
      net.Close(daemonSocket);
      connected := false;
      rv := ERV_OK;
    }

    method Cancel()
      modifies this`mustCancel
      ensures mustCancel
    {
      mustCancel := true;
    }

    /** One round of the event loop: receive a command, call the application, answer.  Run on a
        connection already closed, it closes a number the library does not hold. */
    method AnswerOne(process: seq<Input> -> Rapdu) returns (alive: bool, ghost cmd: Msg)
      requires Sound() && daemonSocket >= 0
      modifies this`connected, this`daemonSocket, this`history, net
      ensures old(connected) ==> Sound()
      ensures !old(connected) ==> !alive && net.stray == 1
      ensures alive ==>
        && connected && daemonSocket == old(daemonSocket) && cmd != []
        && Unframe(old(net.rx[daemonSocket])) == Some((cmd, net.rx[daemonSocket]))
        && net.tx[daemonSocket] == old(net.tx[daemonSocket]) + Frame(ReplyTo(process, old(history), cmd))
        && history == HistoryAfter(old(history), cmd)
      ensures alive ==>
        match cmd[0]
        case 0x01 =>
          && history == old(history) + [PoweredUp]
          && net.tx[daemonSocket] == old(net.tx[daemonSocket]) + Frame([0x00])
        case 0x02 =>
          && history == old(history) + [PoweredDown]
          && net.tx[daemonSocket] == old(net.tx[daemonSocket]) + Frame([0x00])
        case 0x03 =>
          && history == old(history) + [Received(cmd[1..])]
          && net.tx[daemonSocket] == old(net.tx[daemonSocket]) + Frame([0x00] + process(history))
        case _ =>
          && history == old(history)
          && net.tx[daemonSocket] == old(net.tx[daemonSocket]) + Frame([0x02])
      ensures !alive ==> !connected && daemonSocket == -1 && Appends(old(net.tx), net.tx, old(daemonSocket))
      ensures net.reliable && old(connected) && Unframe(old(net.rx[daemonSocket])).Some? ==>
        (alive <==> Unframe(old(net.rx[daemonSocket])).value.0 != [])
    {
      var rc, received := RecvFromDaemon();
      cmd := received;
      if rc != 0 || |received| < 1 {
        net.Close(daemonSocket);
        connected, daemonSocket := false, -1;
        return false, cmd;
      }
      var rsp: Msg := [];
      if received[0] == POWER_UP {
        history := history + [PoweredUp];
        rsp := [EDNA_OK];
      } else if received[0] == POWER_DOWN {
        history := history + [PoweredDown];
        rsp := [EDNA_OK];
      } else if received[0] == TRANSCEIVE_APDU {
        history := history + [Received(received[1..])];
        rsp := [EDNA_OK] + process(history);
      } else {
        rsp := [UNKNOWN_COMMAND];
      }
      rc := SendToDaemon(rsp);
      if rc != 0 {
        Drop();
        return false, cmd;
      }
      alive := true;
    }

    /** One round of the event loop: wait, stop if cancelled, otherwise answer one command. */
    method Round(process: seq<Input> -> Rapdu, cancel: Cancellation, answered: nat)
      returns (outcome: Outcome, ghost cmd: Msg)
      requires Sound() && daemonSocket >= 0 && !mustCancel
      modifies this`connected, this`daemonSocket, this`history, this`mustCancel, net
      ensures outcome.Stopped? <==> cancel == Waiting(answered)
      ensures outcome.Stopped? ==>
        && Sound() && mustCancel && connected == old(connected) && daemonSocket == old(daemonSocket)
        && history == old(history) && net.rx == old(net.rx) && net.tx == old(net.tx)
      ensures !outcome.Stopped? ==> (mustCancel <==> cancel == Busy(answered))
      ensures outcome.Answered? ==>
        && Sound() && old(connected) && connected && daemonSocket == old(daemonSocket) && cmd != []
        && Unframe(old(Incoming())) == Some((cmd, Incoming()))
        && net.tx[daemonSocket] == old(net.tx[daemonSocket]) + Frame(ReplyTo(process, old(history), cmd))
        && history == HistoryAfter(old(history), cmd)
      ensures outcome.Lost? ==>
        && !connected && daemonSocket == -1 && Appends(old(net.tx), net.tx, old(daemonSocket))
        && (if old(connected) then Sound() else net.stray == 1)
        && (net.reliable ==> Answerable(old(Incoming())) == 0)
    {
      cmd := [];
      Wait(cancel == Waiting(answered));
      if mustCancel {
        return Stopped, cmd;
      }
      if cancel == Busy(answered) {
        Cancel();
      }
      ghost var stream := Incoming();
      var alive;
      alive, cmd := AnswerOne(process);
      outcome := if alive then Answered else Lost;
      assert stream == [] ==> Unframe(stream).None?;
    }

    /** Wait until something can be read or the loop is cancelled, which happens during this wait
        if and only if `cancelled`: at some poll, at the latest at the one that ends the wait. */
    method Wait(cancelled: bool)
      modifies this`mustCancel, net`quiet
      ensures mustCancel <==> old(mustCancel) || cancelled
      ensures mustCancel || net.Readable(daemonSocket)
    {
      var ready := net.Select(daemonSocket);
      while !ready && !mustCancel
        invariant mustCancel ==> old(mustCancel) || cancelled
        invariant old(mustCancel) ==> mustCancel
        invariant ready ==> net.Readable(daemonSocket)
        decreases net.quiet, !ready, !mustCancel
      {
        var now: bool := *;
        if cancelled && now {
          Cancel();
        }
        ready := net.Select(daemonSocket);
      }
      if cancelled {
        Cancel();
      }
    }

    /** `edna_lib_loop_and_process`.  It returns ERV_OK if and only if a cancel arrives while it
        runs and before the connection fails, and then it has answered exactly the commands up to
        the one in progress at that moment; a cancel made before the call is forgotten.  Before
        ERV_OK every command received has been answered, once and in order, nothing of the next
        one has been read, and the connection is still up.  Before ERV_DISCONNECTED too all of
        `cmds` have been answered, and nothing is held afterwards.  Run on a closed connection,
        the loop closes a foreign number unless it is cancelled before its first command. */
    method LoopAndProcess(process: seq<Input> -> Rapdu, cancel: Cancellation)
      returns (rv: Rv, ghost cmds: seq<Msg>, ghost rest: seq<byte>)
      requires Sound() && daemonSocket >= 0
      modifies this`connected, this`daemonSocket, this`history, this`mustCancel, net
      ensures rv == ERV_OK || rv == ERV_DISCONNECTED
      ensures rv == ERV_OK <==> Limit(cancel) == Some(|cmds|)
      ensures Limit(cancel).Some? ==> |cmds| <= Limit(cancel).value
      ensures net.reliable ==> rv == LoopResult(old(Incoming()), cancel)
      ensures net.reliable && rv == ERV_DISCONNECTED ==> |cmds| == Answerable(old(Incoming()))
      ensures mustCancel <==> rv == ERV_DISCONNECTED && cancel == Busy(|cmds|)
      ensures Sound() <==> old(connected) || Limit(cancel) == Some(0)
      ensures !old(connected) ==> cmds == []
      ensures rv == ERV_OK ==> connected == old(connected) && daemonSocket == old(daemonSocket)
      ensures rv == ERV_OK && connected ==>
        && rest == net.rx[daemonSocket]
        && InOrder(process, old(history), cmds, history,
                   old(net.rx[daemonSocket]), rest, old(net.tx[daemonSocket]), net.tx[daemonSocket])
      ensures rv == ERV_DISCONNECTED ==> !connected && daemonSocket == -1
      ensures rv == ERV_DISCONNECTED && old(connected) ==>
        && old(net.rx[daemonSocket]) == Wire(cmds) + rest
        && old(daemonSocket) in net.tx
        && old(net.tx[daemonSocket]) + Wire(Replies(process, old(history), cmds)) <= net.tx[old(daemonSocket)]
    {
      mustCancel := false;
      cmds := [];
      var answered: nat := 0;
      ghost var fd, up, stream := daemonSocket, connected, Incoming();
      ghost var written := if up then net.tx[fd] else [];
      rest := stream;
      while !mustCancel
        invariant Sound() && daemonSocket == fd && connected == up
        invariant answered == |cmds| && (!up ==> cmds == [])
        invariant Limit(cancel).Some? ==> answered <= Limit(cancel).value
        invariant mustCancel <==> cancel.Busy? && Limit(cancel) == Some(answered)
        invariant rest == Incoming() && stream == Wire(cmds) + rest && [] !in cmds
        invariant up ==> InOrder(process, old(history), cmds, history, stream, rest, written, net.tx[fd])
        decreases |rest|, !mustCancel
      {
        ghost var hist, tx := history, if up then net.tx[fd] else [];
        var outcome;
        ghost var cmd;
        outcome, cmd := Round(process, cancel, answered);
        if outcome.Stopped? {
          break;
        }
        if outcome.Lost? {
          assert net.reliable ==> Answerable(rest) == 0;
          LoopOutcome(stream, cmds, rest, cancel);
          return ERV_DISCONNECTED, cmds, rest;
        }
        InOrderOneMore(process, old(history), cmds, hist, stream, rest, written, tx, cmd, Incoming());
        cmds, rest := cmds + [cmd], Incoming();
        answered := answered + 1;
      }
      LoopOutcome(stream, cmds, rest, cancel);
      mustCancel := false;
      rv := ERV_OK;
    }
  }

  // ----- Programs ----------------------------------------------------------------------------

  /** A cancel before the loop is lost: without another one the loop never returns ERV_OK. */
  method CancelThenLoop(lib: EdnaLib, process: seq<Input> -> Rapdu) returns (rv: Rv)
    requires lib.Sound() && lib.connected
    modifies lib, lib.net
    ensures rv == ERV_DISCONNECTED && !lib.connected && lib.Sound()
  {
    lib.Cancel();
    ghost var cmds, rest;
    rv, cmds, rest := lib.LoopAndProcess(process, Never);
  }

  /** Nothing requires a program to initialise the library before it connects; if it does so
      afterwards, exactly a successful connection is leaked. */
  method ConnectThenInit(lib: EdnaLib, aid: seq<byte>) returns (connected: Rv, initialised: Rv)
    requires lib.Sound() && !lib.connected && !lib.initialised
    modifies lib, lib.net
    ensures initialised == ERV_OK && !lib.connected && lib.daemonSocket == -1
    ensures connected == ERV_OK <==> lib.net.open != {}
    ensures connected == ERV_OK <==> !lib.Sound()
  {
    connected := lib.Connect(aid);
    initialised := lib.Init();
  }

  /** `edna_lib_disconnect` keeps the number of the socket, unless its last frame could not be
      sent.  The loop run after it closes that number, which the library no longer holds, unless
      it is cancelled before it would read its first command. */
  method DisconnectThenLoop(lib: EdnaLib, process: seq<Input> -> Rapdu, cancel: Cancellation)
    returns (kept: bool, rv: Rv)
    requires lib.Sound() && lib.connected
    modifies lib, lib.net
    ensures lib.net.reliable ==> kept
    ensures kept ==> rv == if cancel == Waiting(0) then ERV_OK else ERV_DISCONNECTED
    ensures lib.Sound() <==> !kept || cancel == Waiting(0)
  {
    rv := lib.Disconnect();
    kept := lib.daemonSocket >= 0;
    if kept {
      ghost var cmds, rest;
      rv, cmds, rest := lib.LoopAndProcess(process, cancel);
    }
  }

  /** A program that uses the library in any order it likes, under any AIDs, except that it
      connects only while the library is initialised and runs the loop only while connected: it
      holds one socket exactly while connected, leaks none and closes none twice. */
  method AnyProgram(lib: EdnaLib, process: seq<Input> -> Rapdu, calls: nat)
    requires lib.Sound() && (lib.connected ==> lib.initialised)
    modifies lib, lib.net
    ensures lib.Sound() && (lib.connected ==> lib.initialised && lib.daemonSocket >= 0)
    ensures lib.net.open != {} <==> lib.connected
  {
    for call := 0 to calls
      invariant lib.Sound() && (lib.connected ==> lib.initialised)
    {
      AnyCall(lib, process);
    }
  }

  method AnyCall(lib: EdnaLib, process: seq<Input> -> Rapdu)
    requires lib.Sound() && (lib.connected ==> lib.initialised)
    modifies lib, lib.net
    ensures lib.Sound() && (lib.connected ==> lib.initialised)
  {
    var call: nat := *;
    var rv;
    if call == 0 {
      rv := lib.Init();
    } else if call == 1 {
      rv := lib.Uninit();
    } else if call == 2 {
      rv := lib.Disconnect();
    } else if call == 3 {
      lib.Cancel();
    } else if call == 4 && lib.initialised {
      var aid: seq<byte> := *;
      rv := lib.Connect(aid);
    } else if lib.connected {
      var cancel: Cancellation := *;
      ghost var cmds, rest;
      rv, cmds, rest := lib.LoopAndProcess(process, cancel);
    }
  }
}

/** The daemon's communications thread (edna_comm.cpp) over byte streams. */
module CommThread {
  import opened Bytes
  import opened Protocol
  import opened Framing
  import opened Hex
  import opened Net
  import opened Transport

  /** The AID a client's stream asks to register, with what follows the request. */
  function Offer(stream: seq<byte>): Option<(seq<byte>, seq<byte>)> {
    match Unframe(stream)
    case Some((ver, rest)) =>
      if ver != [GET_API_VERSION] then None
      else
        (match Unframe(rest)
         case Some((req, left)) =>
           if RequestedAid(req).Some? then Some((RequestedAid(req).value, left)) else None
         case None => None)
    case None => None
  }

  /** What the daemon writes in answer to a registration request, or to the end of the stream. */
  function Verdict(registry: map<seq<byte>, int>, stream: seq<byte>): seq<byte> {
    match Unframe(stream)
    case None => []
    case Some((req, _)) =>
      match RequestedAid(req)
      case None => []
      case Some(aid) => if aid in registry then Frame([AID_EXISTS]) else Frame([EDNA_OK])
  }

  /** All that `new_client` writes to a client that sends `stream`. */
  function Greeting(registry: map<seq<byte>, int>, stream: seq<byte>): seq<byte> {
    match Unframe(stream)
    case None => []
    case Some((ver, rest)) =>
      if ver == [GET_API_VERSION] then Frame([API_VERSION]) + Verdict(registry, rest) else []
  }

  datatype Streams = Streams(rx: map<int, seq<byte>>, tx: map<int, seq<byte>>)

  /** The connection on `fd`, and no other, was read.  It is dropped at the end of its stream or
      at a DISCONNECT, and otherwise kept with the rest of its stream. */
  predicate Served(reliable: bool, before: Daemon, after: Daemon, fd: int) {
    && (after.registry == before.registry || after.registry == Without(before.registry, fd))
    && after.selected == before.selected
    && OnlyAt(before.streams.rx, after.streams.rx, fd) && after.streams.tx == before.streams.tx
    && fd in before.streams.rx && fd in after.streams.rx
    && match Unframe(before.streams.rx[fd])
       case None => after.registry == Without(before.registry, fd)
       case Some((m, rest)) =>
         && (m != [] && m[0] == DISCONNECT ==> after.registry == Without(before.registry, fd))
         && (reliable && !(m != [] && m[0] == DISCONNECT) ==> after.registry == before.registry)
         && (reliable || after.registry == before.registry ==> after.streams.rx[fd] == rest)
  }

  /** The frame that carries an APDU; an oversize one is not sent. */
  function Request(apdu: seq<byte>): seq<byte> {
    if |apdu| < MAX_FRAME then Frame([TRANSCEIVE_APDU] + apdu) else []
  }

  /** What one exchange with the application on `fd` does to the streams: at most one frame is
      written and one is read, both on `fd`; it succeeds when the frame read starts with EDNA_OK,
      and on a reliable network only then. */
  predicate Exchanged(reliable: bool, open: set<int>, before: Streams, after: Streams,
                      fd: int, apdu: seq<byte>, ok: bool, rdata: seq<byte>) {
    && OnlyAt(before.rx, after.rx, fd)
    && WrotePart(before.tx, after.tx, fd, Request(apdu))
    && (ok ==>
          && fd in open && fd in before.rx && fd in before.tx
          && Unframe(before.rx[fd]).Some?
          && var (rsp, rest) := Unframe(before.rx[fd]).value;
             && ReadResponse(rsp) == Some(rdata) && after.rx[fd] == rest
             && after.tx[fd] == before.tx[fd] + Request(apdu))
    && (reliable && fd in open && fd in before.rx && Unframe(before.rx[fd]).Some? ==>
          (ok <==> ReadResponse(Unframe(before.rx[fd]).value.0).Some?))
    && (reliable && fd in open && fd in before.tx ==>
          fd in after.tx && after.tx[fd] == before.tx[fd] + Request(apdu))
  }

  /** The state of the daemon's side: the thread's fields and the streams of its sockets. */
  datatype Daemon = Daemon(registry: map<seq<byte>, int>, selected: int, open: set<int>, streams: Streams)

  /** What `transceive` does: 6f00 for a SELECT of fewer than five bytes, 6d00 when nothing is
      selected; otherwise one exchange with the routed application, and on failure that
      application is unregistered, if it still was registered, and nothing is selected. */
  predicate Transceived(reliable: bool, before: Daemon, after: Daemon, apdu: seq<byte>, ok: bool, rdata: seq<byte>) {
    var fd := Route(before.registry, before.selected, apdu);
    if ParseSelect(apdu).Malformed? then
      ok && rdata == SW_NO_DIAGNOSIS && after == before
    else if fd == NO_APP_SELECTED then
      ok && rdata == SW_INS_NOT_SUPPORTED && after == before.(selected := NO_APP_SELECTED)
    else
      && Exchanged(reliable, before.open, before.streams, after.streams, fd, apdu, ok, rdata)
      && (ok ==> after.registry == before.registry && after.selected == fd)
      && (!ok ==>
            && after.registry == Without(before.registry, fd)
            && after.selected == NO_APP_SELECTED && fd !in after.open
            && rdata == SW_INS_NOT_SUPPORTED)
      && (fd !in before.open ==>
            && after.registry == before.registry && after.open == before.open
            && (|apdu| < MAX_FRAME ==> !ok))
  }

  /** What a power event does: nothing is selected any more, and every registered application,
      and nobody else, is sent `kind` once, and its response is read, or as much of it as an
      unreliable network lets through. */
  predicate Powered(reliable: bool, before: Daemon, after: Daemon, kind: byte) {
    && after.registry == before.registry && after.selected == NO_APP_SELECTED && after.open == before.open
    && KeepsOthers(before.streams, after.streams, before.registry.Values)
    && (forall fd | fd in before.registry.Values :: PoweredOne(reliable, before.streams, after.streams, fd, kind))
  }

  /** What `new_client` does about the client on `fd`, whatever it sends: one absent key is added,
      after the client followed the handshake, or the registry is as it was and the socket is
      closed.  A first part of `Greeting` is written, and all of it on a reliable network. */
  predicate NewClientDone(reliable: bool, before: Daemon, after: Daemon, fd: int)
    requires fd in before.streams.rx && fd in before.streams.tx
  {
    var stream, written := before.streams.rx[fd], before.streams.tx[fd];
    && OnlyAt(before.streams.rx, after.streams.rx, fd)
    && WrotePart(before.streams.tx, after.streams.tx, fd, Greeting(before.registry, stream))
    && after.selected == before.selected
    && (if fd in after.open then
          && after.open == before.open && Offer(stream).Some?
          && var (aid, rest) := Offer(stream).value;
             && aid !in before.registry && aid != [] && after.registry == before.registry[aid := fd]
             && after.streams.rx[fd] == rest
             && after.streams.tx[fd] == written + Frame([API_VERSION]) + Frame([EDNA_OK])
        else
          after.open == before.open - {fd} && after.registry == before.registry)
    && (reliable ==>
          && after.streams.tx[fd] == written + Greeting(before.registry, stream)
          && (Offer(stream).Some? ==> (fd in after.open <==> Offer(stream).value.0 !in before.registry)))
  }

  /** What the registration half of `new_client` does; a client that is not registered is still
      to be closed. */
  predicate RegisterDone(reliable: bool, before: Daemon, after: Daemon, fd: int, registered: bool)
    requires fd in before.streams.rx && fd in before.streams.tx
  {
    var stream, written := before.streams.rx[fd], before.streams.tx[fd];
    && OnlyAt(before.streams.rx, after.streams.rx, fd)
    && WrotePart(before.streams.tx, after.streams.tx, fd, Verdict(before.registry, stream))
    && after.selected == before.selected && after.open == before.open
    && (if registered then
          && Unframe(stream).Some?
          && var (req, rest) := Unframe(stream).value;
             && RequestedAid(req).Some? && RequestedAid(req).value != []
             && RequestedAid(req).value !in before.registry
             && after.registry == before.registry[RequestedAid(req).value := fd]
             && after.streams.rx[fd] == rest
             && after.streams.tx[fd] == written + Frame([EDNA_OK])
        else
          after.registry == before.registry)
    && (reliable ==>
          && after.streams.tx[fd] == written + Verdict(before.registry, stream)
          && (Unframe(stream).Some? ==>
                var aid := RequestedAid(Unframe(stream).value.0);
                registered <==> aid.Some? && aid.value !in before.registry))
  }

  /** A client that does not get as far as the registration half. */
  lemma TurnedAway(reliable: bool, before: Daemon, after: Daemon, fd: int)
    requires fd in before.streams.rx && fd in before.streams.tx
    requires OnlyAt(before.streams.rx, after.streams.rx, fd) && after.selected == before.selected
    requires after.open == before.open - {fd} && after.registry == before.registry
    requires if Unframe(before.streams.rx[fd]).Some? && Unframe(before.streams.rx[fd]).value.0 == [GET_API_VERSION] then
               !reliable && WrotePart(before.streams.tx, after.streams.tx, fd, Frame([API_VERSION]))
             else
               after.streams.tx == before.streams.tx
    ensures NewClientDone(reliable, before, after, fd)
  {
  }

  /** A client that does. */
  lemma Registered(reliable: bool, before: Daemon, mid: Daemon, after: Daemon, fd: int, registered: bool)
    requires fd in before.streams.rx && fd in before.streams.tx && fd in mid.streams.rx && fd in mid.streams.tx
    requires OnlyAt(before.streams.rx, mid.streams.rx, fd)
    requires Unframe(before.streams.rx[fd]) == Some(([GET_API_VERSION], mid.streams.rx[fd]))
    requires mid == before.(streams := Streams(mid.streams.rx,
               before.streams.tx[fd := before.streams.tx[fd] + Frame([API_VERSION])]))
    requires RegisterDone(reliable, mid, after, fd, registered) && fd in before.open
    ensures NewClientDone(reliable, before, if registered then after else after.(open := after.open - {fd}), fd)
  {
    Assoc(before.streams.tx[fd], Frame([API_VERSION]), Verdict(before.registry, mid.streams.rx[fd]));
  }

  /** What any number of turns of the communications thread leave alone: the selection, and that
      exactly the registered descriptors are open, each under one AID that is not empty. */
  predicate TookTurns(before: Daemon, after: Daemon) {
    && after.selected == before.selected
    && after.open == after.registry.Values && Injective(after.registry) && [] !in after.registry
  }

  predicate KeepsOthers(before: Streams, after: Streams, fds: set<int>) {
    && after.tx.Keys == before.tx.Keys && after.rx.Keys == before.rx.Keys
    && (forall fd | fd in before.tx && fd !in fds :: after.tx[fd] == before.tx[fd])
    && (forall fd | fd in before.rx && fd !in fds :: after.rx[fd] == before.rx[fd])
  }

  predicate PoweredOne(reliable: bool, before: Streams, after: Streams, fd: int, kind: byte) {
    && fd in before.tx && fd in after.tx && before.tx[fd] <= after.tx[fd] <= before.tx[fd] + Frame([kind])
    && fd in before.rx && fd in after.rx
    && (reliable ==>
          && after.tx[fd] == before.tx[fd] + Frame([kind])
          && (Unframe(before.rx[fd]).Some? ==> after.rx[fd] == Unframe(before.rx[fd]).value.1))
  }

  /** A power event that has still to reach the applications `todo`. */
  predicate PoweredSoFar(reliable: bool, registry: map<seq<byte>, int>, todo: set<seq<byte>>,
                         before: Streams, now: Streams, kind: byte) {
    && now.tx.Keys == before.tx.Keys && now.rx.Keys == before.rx.Keys
    && (forall fd | fd in before.tx && fd !in registry.Values :: now.tx[fd] == before.tx[fd])
    && (forall fd | fd in before.rx && fd !in registry.Values :: now.rx[fd] == before.rx[fd])
    && (forall aid | aid in todo && aid in registry :: SameStreams(before, now, registry[aid]))
    && (forall aid | aid in registry && aid !in todo :: PoweredOne(reliable, before, now, registry[aid], kind))
  }

  predicate SameStreams(before: Streams, now: Streams, fd: int) {
    && fd in before.tx && fd in now.tx && now.tx[fd] == before.tx[fd]
    && fd in before.rx && fd in now.rx && now.rx[fd] == before.rx[fd]
  }

  lemma OneMorePowered(reliable: bool, registry: map<seq<byte>, int>, todo: set<seq<byte>>,
                       before: Streams, now: Streams, next: Streams, kind: byte, aid: seq<byte>)
    requires Injective(registry) && todo <= registry.Keys && aid in todo
    requires PoweredSoFar(reliable, registry, todo, before, now, kind)
    requires OnlyAt(now.rx, next.rx, registry[aid]) && OnlyAt(now.tx, next.tx, registry[aid])
    requires PoweredOne(reliable, now, next, registry[aid], kind)
    ensures PoweredSoFar(reliable, registry, todo - {aid}, before, next, kind)
  {
  }

  /** The first of some keys in the order of the registry. */
  predicate IsFirst(keys: set<seq<byte>>, aid: seq<byte>) {
    aid in keys && forall b | b in keys :: !Less(b, aid)
  }

  /** The key at which a walk over the entries `keys` goes on. */
  method First(keys: set<seq<byte>>) returns (aid: seq<byte>)
    requires keys != {}
    ensures IsFirst(keys, aid)
  {
    aid :| aid in keys;
    LessTotal(aid, aid);
    var todo := keys - {aid};
    while todo != {}
      invariant todo <= keys && IsFirst(keys - todo, aid)
    {
      var b :| b in todo;
      if Less(b, aid) {
        FirstMoves(keys - todo, aid, b);
        aid := b;
      }
      assert keys - (todo - {b}) == (keys - todo) + {b};
      todo := todo - {b};
    }
    assert keys - todo == keys;
  }

  lemma FirstMoves(keys: set<seq<byte>>, aid: seq<byte>, b: seq<byte>)
    requires IsFirst(keys, aid) && Less(b, aid)
    ensures IsFirst(keys + {b}, b)
  {
    LessTotal(b, b);
    forall c | c in keys
      ensures !Less(c, b)
    {
      if Less(c, b) {
        LessTransitive(c, b, aid);
      }
    }
  }

  class CommThread {
    const net: Net
    var applicationRegistry: map<seq<byte>, int>
    var selectedApplication: int
    var shouldRun: bool

    /** No AID is empty, no descriptor is registered twice, and the open client descriptors are
        the registered ones and `extra`; nothing was ever closed that was not open. */
    ghost predicate Owns(extra: set<int>)
      reads this, net
    {
      && net.Valid() && net.stray == 0
      && Injective(applicationRegistry) && [] !in applicationRegistry
      && net.open == applicationRegistry.Values + extra && applicationRegistry.Values !! extra
      && selectedApplication >= NO_APP_SELECTED
    }

    function Snapshot(): Daemon
      reads this, net
    {
      Daemon(applicationRegistry, selectedApplication, net.open, Streams(net.rx, net.tx))
    }

    constructor (net: Net)
      requires net.Valid() && net.open == {} && net.stray == 0
      ensures Owns({}) && this.net == net && applicationRegistry == map[]
      ensures selectedApplication == NO_APP_SELECTED && shouldRun
    {
      this.net := net;
      applicationRegistry, selectedApplication, shouldRun := map[], NO_APP_SELECTED, true;
    }

    method UnregisterBySocket(clientSocket: int)
      requires Owns({})
      modifies this`applicationRegistry, net
      ensures Owns({})
      ensures applicationRegistry == Without(old(applicationRegistry), clientSocket)
      ensures net.open == old(net.open) - if clientSocket in old(applicationRegistry).Values then {clientSocket} else {}
      ensures net.rx == old(net.rx) && net.tx == old(net.tx) && net.patience == old(net.patience)
    {
      var todo := applicationRegistry.Keys;
      while todo != {}
        invariant todo <= applicationRegistry.Keys && applicationRegistry == old(applicationRegistry)
        invariant forall aid | aid in applicationRegistry && aid !in todo :: applicationRegistry[aid] != clientSocket
        invariant Owns({}) && net.open == old(net.open)
        invariant net.rx == old(net.rx) && net.tx == old(net.tx) && net.patience == old(net.patience)
      {
        var aid :| aid in todo;
        if applicationRegistry[aid] == clientSocket {
          assert clientSocket in applicationRegistry.Values;
          net.Close(clientSocket);
          WithoutValues(applicationRegistry, clientSocket);
          assert Without(applicationRegistry, clientSocket) == applicationRegistry - {aid};
          applicationRegistry := applicationRegistry - {aid};
          return;
        }
        todo := todo - {aid};
      }
      assert clientSocket !in applicationRegistry.Values;
      assert Without(applicationRegistry, clientSocket) == applicationRegistry;
    }

    /** A payload over 65535 bytes is reported as sent, though nothing is. */
    method SendToClient(clientSocket: int, tx: seq<byte>) returns (ok: bool)
      requires net.Valid()
      modifies net
      ensures net.Valid() && net.open == old(net.open) && net.rx == old(net.rx) && net.stray == old(net.stray)
      ensures net.patience == old(net.patience) && OnlyAt(old(net.tx), net.tx, clientSocket)
      ensures |tx| > MAX_FRAME ==> ok && net.tx == old(net.tx)
      ensures |tx| <= MAX_FRAME ==> WrotePart(old(net.tx), net.tx, clientSocket, Frame(tx))
      ensures ok && |tx| <= MAX_FRAME ==>
        clientSocket in net.open && net.tx == old(net.tx)[clientSocket := old(net.tx[clientSocket]) + Frame(tx)]
      ensures |tx| <= MAX_FRAME && clientSocket !in net.open ==> !ok && net.tx == old(net.tx)
      ensures net.reliable && clientSocket in net.open ==> ok
    {
      if |tx| > MAX_FRAME {
        return true;
      }
      ok := SendFrame(net, clientSocket, tx);
    }

    method NewClient(clientFd: int)
      requires Owns({clientFd})
      modifies this`applicationRegistry, net
      ensures Owns({})
      ensures NewClientDone(net.reliable, old(Snapshot()), Snapshot(), clientFd)
    {
      ghost var before := Snapshot();
      var ok, reqApiVer := ReceiveFrame(net, clientFd);
      if !ok {
        net.Close(clientFd);
        TurnedAway(net.reliable, before, Snapshot(), clientFd);
        return;
      }
      if |reqApiVer| != 1 || reqApiVer[0] != GET_API_VERSION {
        net.Close(clientFd);
        TurnedAway(net.reliable, before, Snapshot(), clientFd);
        return;
      }
      assert reqApiVer == [GET_API_VERSION];
      ok := SendToClient(clientFd, [API_VERSION]);
      if !ok {
        net.Close(clientFd);
        TurnedAway(net.reliable, before, Snapshot(), clientFd);
        return;
      }
      ghost var mid := Snapshot();
      ok := RegisterClient(clientFd);
      Registered(net.reliable, before, mid, Snapshot(), clientFd, ok);
      if !ok {
        net.Close(clientFd);
      }
    }

    /** The second half of `new_client`: the registration request. */
    method RegisterClient(clientFd: int) returns (registered: bool)
      requires Owns({clientFd})
      modifies this`applicationRegistry, net
      ensures registered ==> Owns({})
      ensures !registered ==> Owns({clientFd})
      ensures RegisterDone(net.reliable, old(Snapshot()), Snapshot(), clientFd, registered)
    {
      var ok, regAid := ReceiveFrame(net, clientFd);
      if !ok {
        return false;
      }
      if |regAid| < 2 || regAid[0] != REGISTER_AID {
        return false;
      }
      var aid := Substr(regAid, 1, SIZE_T_MAX);
      SubstrIsTail(regAid, 1);
      if aid in applicationRegistry {
        ok := SendToClient(clientFd, [AID_EXISTS]);
        return false;
      }
      ok := SendToClient(clientFd, [EDNA_OK]);
      if !ok {
        return false;
      }
      InsertValues(applicationRegistry, aid, clientFd);
      applicationRegistry := applicationRegistry[aid := clientFd];
      registered := true;
    }

    method SelectByAid(aid: seq<byte>)
      requires Owns({})
      modifies this`selectedApplication
      ensures Owns({})
      ensures selectedApplication ==
        if aid in applicationRegistry then applicationRegistry[aid] else old(selectedApplication)
    {
      if aid in applicationRegistry {
        assert applicationRegistry[aid] in applicationRegistry.Values;
        selectedApplication := applicationRegistry[aid];
      }
    }

    function ApplicationSelected(): bool
      reads this
    {
      selectedApplication != NO_APP_SELECTED
    }

    method Transceive(apdu: seq<byte>) returns (ok: bool, rdata: seq<byte>)
      requires Owns({})
      modifies this`applicationRegistry, this`selectedApplication, net
      ensures Owns({})
      ensures Transceived(net.reliable, old(Snapshot()), Snapshot(), apdu, ok, rdata) && |rdata| <= MAX_FRAME
    {
      rdata := SW_INS_NOT_SUPPORTED;
      if Substr(apdu, 0, 3) == [0x00, 0xa4, 0x04] {
        if |apdu| < 5 {
          return true, SW_NO_DIAGNOSIS;
        }
        SelectByAid(Substr(apdu, 5, apdu[4] as nat));
      }
      assert selectedApplication == Route(old(applicationRegistry), old(selectedApplication), apdu);
      if selectedApplication == NO_APP_SELECTED {
        return true, rdata;
      }
      ok, rdata := Exchange(selectedApplication, apdu, rdata);
      if !ok {
        UnregisterBySocket(selectedApplication);
        selectedApplication := NO_APP_SELECTED;
      }
    }

    /** The part of `transceive` under the mutex. */
    method Exchange(fd: int, apdu: seq<byte>, initial: seq<byte>) returns (ok: bool, rdata: seq<byte>)
      requires Owns({})
      modifies net
      ensures Owns({}) && net.open == old(net.open)
      ensures Exchanged(net.reliable, net.open, old(Snapshot()).streams, Snapshot().streams, fd, apdu, ok, rdata)
      ensures fd !in net.open ==> !ok
      ensures !ok ==> rdata == initial
      ensures |initial| <= MAX_FRAME ==> |rdata| <= MAX_FRAME
    {
      rdata := initial;
      ok := SendToClient(fd, [TRANSCEIVE_APDU] + apdu);
      if !ok {
        return;
      }
      var apduRsp;
      ok, apduRsp := ReceiveFrame(net, fd);
      if !ok || |apduRsp| < 1 || apduRsp[0] != EDNA_OK {
        return false, rdata;
      }
      rdata := Substr(apduRsp, 1, SIZE_T_MAX);
    }

    /** `powerup_on_select` and `powerdown_on_deselect`, which differ in `kind` only: a walk over
        the registry in key order. */
    method PowerEvent(kind: byte)
      requires Owns({})
      modifies this`selectedApplication, net
      ensures Owns({})
      ensures Powered(net.reliable, old(Snapshot()), Snapshot(), kind)
    {
      selectedApplication := NO_APP_SELECTED;
      var todo := applicationRegistry.Keys;
      ghost var before := Streams(net.rx, net.tx);
      while todo != {}
        invariant todo <= applicationRegistry.Keys && selectedApplication == NO_APP_SELECTED
        invariant Owns({}) && net.open == old(net.open)
        invariant PoweredSoFar(net.reliable, applicationRegistry, todo, before, Streams(net.rx, net.tx), kind)
      {
        var aid := First(todo);
        assert applicationRegistry[aid] in applicationRegistry.Values;
        ghost var now := Streams(net.rx, net.tx);
        PowerOne(applicationRegistry[aid], kind);
        OneMorePowered(net.reliable, applicationRegistry, todo, before, now, Streams(net.rx, net.tx), kind, aid);
        todo := todo - {aid};
      }
    }

    /** One application is sent a power command and its response is read. */
    method PowerOne(fd: int, kind: byte)
      requires Owns({}) && fd in net.open
      modifies net
      ensures Owns({}) && net.open == old(net.open)
      ensures OnlyAt(old(net.rx), net.rx, fd) && OnlyAt(old(net.tx), net.tx, fd)
      ensures PoweredOne(net.reliable, old(Snapshot()).streams, Snapshot().streams, fd, kind)
    {
      var ok := SendToClient(fd, [kind]);
      if ok {
        var rsp;
        ok, rsp := ReceiveFrame(net, fd);
      }
    }

    /** A command was received on an open connection: the first reported one, in key order, is
        read, and is dropped at its DISCONNECT or when nothing can be read. */
    method ServeReady(ready: set<int>)
      requires Owns({})
      modifies this`applicationRegistry, net
      ensures Owns({})
      ensures var reported := set aid | aid in old(applicationRegistry) && old(applicationRegistry)[aid] in ready;
        && (reported == {} ==> applicationRegistry == old(applicationRegistry) && unchanged(net))
        && (reported != {} ==>
              exists aid :: IsFirst(reported, aid)
                && Served(net.reliable, old(Snapshot()), Snapshot(), old(applicationRegistry)[aid]))
    {
      var todo := applicationRegistry.Keys;
      ghost var reported := set aid | aid in applicationRegistry && applicationRegistry[aid] in ready;
      while todo != {}
        invariant todo <= applicationRegistry.Keys && applicationRegistry == old(applicationRegistry)
        invariant Owns({}) && unchanged(net) && reported <= todo
      {
        var aid := First(todo);
        var fd := applicationRegistry[aid];
        if fd in ready {
          assert fd in applicationRegistry.Values;
          var ok, rx := ReceiveFrame(net, fd);
          if !ok || (|rx| > 0 && rx[0] == DISCONNECT) {
            UnregisterBySocket(fd);
          }
          assert IsFirst(reported, aid) && Served(net.reliable, old(Snapshot()), Snapshot(), fd);
          return;
        }
        todo := todo - {aid};
      }
    }

    /** Leaving `threadproc`: every connection is closed, each once. */
    method CloseAll()
      requires Owns({})
      modifies net
      ensures net.Valid() && net.open == {} && net.stray == 0
      ensures net.rx == old(net.rx) && net.tx == old(net.tx)
    {
      var todo := applicationRegistry.Keys;
      while todo != {}
        invariant todo <= applicationRegistry.Keys
        invariant net.Valid() && net.stray == 0 && Injective(applicationRegistry)
        invariant net.open == set aid | aid in todo :: applicationRegistry[aid]
        invariant net.rx == old(net.rx) && net.tx == old(net.tx)
      {
        var aid :| aid in todo;
        net.Close(applicationRegistry[aid]);
        todo := todo - {aid};
      }
    }

    /** Up to `rounds` turns of `threadproc`: each accepts a client or reads a command. */
    method Serve(rounds: nat)
      requires Owns({})
      modifies this`applicationRegistry, net
      ensures Owns({}) && TookTurns(old(Snapshot()), Snapshot())
    {
      for turn := 0 to rounds
        invariant Owns({})
      {
        var listening: bool := *;
        if listening {
          var newClientFd := net.Open();
          if newClientFd >= 0 {
            NewClient(newClientFd);
          }
        } else {
          var ready: set<int> := *;
          ServeReady(ready);
        }
      }
    }

    /** `threadproc`, when the emulator thread is idle: it serves until it is told to stop. */
    method ThreadProc(rounds: nat)
      requires Owns({})
      modifies this`applicationRegistry, this`shouldRun, net
      ensures net.Valid() && net.open == {} && net.stray == 0
      ensures [] !in applicationRegistry && Injective(applicationRegistry) && !shouldRun
    {
      Serve(rounds);
      shouldRun := false;
      CloseAll();
    }
  }
}

/** Steps of the communications thread keep the invariant. */
module CommSteps {
  import opened Bytes
  import opened Protocol
  import opened System
  import opened Invariant
  import opened ClientSteps

  /** Only the communications thread's program point changes. */
  lemma CommMoves(w: World, s: State, comm: Comm)
    requires Inv(w, s)
    requires HandFd(s.comm) == {} == HandFd(comm)
    requires comm.Accepting? ==> !Held(s)
    requires comm.Serving? || comm.Dropping? ==>
      forall i | 0 <= i < |s.conns| && Clean(s.conns[i]) && s.conns[i].fd >= 0 ::
        ((comm.Serving? && s.conns[i].fd in comm.ready) || (comm.Dropping? && s.conns[i].fd == comm.fd)) ==>
          Gone(s.conns[i])
    ensures Inv(w, s.(comm := comm))
  {
    var t := s.(comm := comm);
    AnswersFrame(w, s, t);
    assert Connections(w, t);
    assert Exchange(t);
  }

  lemma SelectKeeps(w: World, s: State, ready: set<int>)
    requires Inv(w, s) && CommCan(s, SelectReady(ready))
    ensures Inv(w, s.(comm := Serving(ready)))
  {
    forall i | 0 <= i < |s.conns| && Clean(s.conns[i]) && s.conns[i].fd in ready
      ensures Gone(s.conns[i])
    {
      assert Readable(s, s.conns[i].fd);
      assert ConnOk(w, s.registry, Seen(s.selected, s.conns[i]), s.comm, s.emu, i, s.conns[i]);
    }
    CommMoves(w, s, Serving(ready));
  }

  lemma ConsumeTouches(s: State, fd: int)
    requires IsOpen(s, fd)
    ensures Touches(s, Consume(s, fd), s.open[fd])
    ensures var t := Consume(s, fd);
      && t.selected == s.selected && t.comm == s.comm && t.emu == s.emu && t.answers == s.answers
      && t.conns[s.open[fd]].hist == s.conns[s.open[fd]].hist
      && (Gone(s.conns[s.open[fd]]) ==> Gone(t.conns[s.open[fd]]))
  {
  }

  lemma HandleKeeps(w: World, s: State, fd: int)
    requires Inv(w, s) && s.comm.Serving? && fd in s.comm.ready && fd in s.registry.Values
    ensures Inv(w, Consume(s, fd).(comm := AfterRead(Incoming(s, fd), fd)))
  {
    var t := Consume(s, fd);
    assert fd in s.open.Keys;
    var i := s.open[fd];
    ConsumeTouches(s, fd);
    if Clean(s.conns[i]) {
      GoneStays(w, s, t, i);
    }
    TouchKeeps(w, s, t, i);
    CommMoves(w, t, AfterRead(Incoming(s, fd), fd));
  }

  /** Reading from a connection whose client has gone. */
  lemma GoneStays(w: World, s: State, t: State, i: nat)
    requires Connections(w, s) && Touches(s, t, i) && t.selected == s.selected && t.comm == s.comm && t.emu == s.emu
    requires t == Consume(s, s.conns[i].fd) && IsOpen(s, s.conns[i].fd) && s.open[s.conns[i].fd] == i
    requires Clean(s.conns[i]) && s.conns[i].fd >= 0 && !s.conns[i].shut
    requires s.comm.Serving? && s.conns[i].fd in s.comm.ready
    ensures Gone(s.conns[i]) && Gone(t.conns[i])
    ensures ConnOk(w, t.registry, Seen(t.selected, t.conns[i]), t.comm, t.emu, i, t.conns[i])
  {
    assert ConnOk(w, s.registry, Seen(s.selected, s.conns[i]), s.comm, s.emu, i, s.conns[i]);
  }

  lemma AcceptDescriptors(s: State, fd: int)
    requires Descriptors(s) && s.backlog != [] && fd >= 0 && fd !in s.open && s.backlog[0] in s.backlog
    ensures s.backlog[0] < |s.conns| && Descriptors(AcceptDo(s, fd))
  {
    var t := AcceptDo(s, fd);
    assert forall k | 0 <= k < |s.backlog| :: s.backlog[k] in s.backlog;
    assert s.backlog == [s.backlog[0]] + t.backlog;
  }

  lemma AcceptRegistry(s: State, fd: int)
    requires Registry(s) && Selected(s) && HandFd(s.comm) == {}
    requires s.backlog != [] && s.backlog[0] < |s.conns| && fd >= 0 && fd !in s.open
    requires s.conns[s.backlog[0]].fd == -1 && (s.emu.Sent? ==> s.selected in s.open)
    ensures Registry(AcceptDo(s, fd)) && Selected(AcceptDo(s, fd))
  {
  }

  lemma AcceptConnections(w: World, s: State, fd: int)
    requires Descriptors(s) && Connections(w, s)
    requires s.comm.Accepting? && s.backlog != [] && fd >= 0 && fd !in s.open && s.backlog[0] in s.backlog
    requires s.emu.Sent? ==> s.selected in s.open
    requires s.emu.PowerSent? ==> s.emu.fd in s.open
    ensures Connections(w, AcceptDo(s, fd))
  {
    var t := AcceptDo(s, fd);
    forall i | 0 <= i < |t.conns| && Clean(t.conns[i])
      ensures ConnOk(w, t.registry, Seen(t.selected, t.conns[i]), t.comm, t.emu, i, t.conns[i])
    {
      assert ConnOk(w, s.registry, Seen(s.selected, s.conns[i]), s.comm, s.emu, i, s.conns[i]);
    }
  }

  lemma AcceptKeeps(w: World, s: State, fd: int)
    requires Inv(w, s)
    requires s.comm.Accepting? && s.backlog != [] && s.backlog[0] < |s.conns| && fd >= 0 && fd !in s.open
    ensures Inv(w, AcceptDo(s, fd))
  {
    assert s.backlog[0] in s.backlog;
    AcceptDescriptors(s, fd);
    AcceptRegistry(s, fd);
    AcceptConnections(w, s, fd);
    AnswersFrame(w, s, AcceptDo(s, fd));
    assert Exchange(AcceptDo(s, fd));
  }

  // The handshake with connection `i` moves on to `t.comm`.

  ghost predicate Continues(s: State, t: State, i: nat) {
    && Touches(s, t, i)
    && t.selected == s.selected && t.emu == s.emu && t.answers == s.answers
    && s.conns[i].fd >= 0 && !s.conns[i].shut
    && s.conns[i].fd in HandFd(s.comm) && !s.comm.Insert? && HandFd(t.comm) == HandFd(s.comm)
    && t.conns[i].hist == s.conns[i].hist
  }

  lemma ContinueConnections(w: World, s: State, t: State, i: nat)
    requires Descriptors(s) && Connections(w, s) && Continues(s, t, i)
    requires Clean(t.conns[i]) && !t.comm.Insert? ==> HandshakeOk(t.comm, t.conns[i])
    requires Clean(t.conns[i]) && t.comm.Insert? ==>
      RegisteredOk(w, t.registry, Seen(t.selected, t.conns[i]), t.comm, t.emu, i, t.conns[i])
    ensures Connections(w, t)
  {
    forall k | 0 <= k < |t.conns| && Clean(t.conns[k])
      ensures ConnOk(w, t.registry, Seen(t.selected, t.conns[k]), t.comm, t.emu, k, t.conns[k])
    {
      assert ConnOk(w, s.registry, Seen(s.selected, s.conns[k]), s.comm, s.emu, k, s.conns[k]);
    }
  }

  lemma ExchangeFrame(s: State, t: State, i: nat)
    requires Exchange(s) && Descriptors(s) && Touches(s, t, i)
    requires t.selected == s.selected && t.emu == s.emu && t.conns[i].hist == s.conns[i].hist
    ensures Exchange(t)
  {
  }

  lemma HandshakeKeeps(w: World, s: State, t: State, i: nat)
    requires Inv(w, s) && Continues(s, t, i)
    requires Clean(t.conns[i]) && !t.comm.Insert? ==> HandshakeOk(t.comm, t.conns[i])
    requires Clean(t.conns[i]) && t.comm.Insert? ==>
      RegisteredOk(w, t.registry, Seen(t.selected, t.conns[i]), t.comm, t.emu, i, t.conns[i])
    requires Registry(t)
    ensures Inv(w, t)
  {
    ShapeFrame(w, s, t, i);
    ContinueConnections(w, s, t, i);
    ExchangeFrame(s, t, i);
  }

  // Connection `i`, on `fd`, is closed in state `c`.

  ghost predicate Closes(s: State, t: State, i: nat, fd: int, c: Conn) {
    && i < |s.conns| && s.conns[i].fd == fd >= 0
    && t == s.(conns := s.conns[i := c], open := s.open - {fd}, comm := Selecting, registry := t.registry)
    && c.fd == -1 && c.shut && c.hist == s.conns[i].hist
    && c.lib == s.conns[i].lib && !c.standing.Suspect?
    && (Clean(c) ==> Clean(s.conns[i]) && !(s.conns[i].standing.Suspect? && InCall(s.emu)))
    && (HasLeft(s.conns[i]) ==> HasLeft(c))
  }

  lemma CloseShape(w: World, s: State, t: State, i: nat, fd: int, c: Conn)
    requires Descriptors(s) && Answers(w, s) && Closes(s, t, i, fd, c)
    ensures Descriptors(t) && Answers(w, t)
  {
    AnswersFrame(w, s, t);
  }

  lemma CloseExchange(w: World, s: State, t: State, i: nat, fd: int, c: Conn)
    requires Descriptors(s) && Exchange(s) && Closes(s, t, i, fd, c)
    requires Clean(c) && fd == s.selected && InCall(s.emu) ==> HasLeft(c)
    ensures Exchange(t)
  {
  }

  lemma CloseConnections(w: World, s: State, t: State, i: nat, fd: int, c: Conn)
    requires Descriptors(s) && Connections(w, s) && Closes(s, t, i, fd, c)
    requires t.registry == s.registry || t.registry == Without(s.registry, fd)
    requires s.comm.Dropping? || HandFd(s.comm) == {fd}
    requires Clean(c) ==> ShutOk(c)
    ensures Connections(w, t)
  {
    forall k | 0 <= k < |t.conns| && Clean(t.conns[k])
      ensures ConnOk(w, t.registry, Seen(t.selected, t.conns[k]), t.comm, t.emu, k, t.conns[k])
    {
      assert Clean(s.conns[k]) ==> ConnOk(w, s.registry, Seen(s.selected, s.conns[k]), s.comm, s.emu, k, s.conns[k]);
    }
  }

  /** The handshake ends with the connection closed. */
  lemma RejectKeeps(w: World, s: State, t: State, i: nat, fd: int, c: Conn)
    requires Inv(w, s) && Closes(s, t, i, fd, c) && t.registry == s.registry
    requires HandFd(s.comm) == {fd} && !s.comm.Insert?
    requires Clean(c) ==> ShutOk(c)
    ensures Inv(w, t)
  {
    CloseShape(w, s, t, i, fd, c);
    if Clean(c) {
      assert ConnOk(w, s.registry, Seen(s.selected, s.conns[i]), s.comm, s.emu, i, s.conns[i]);
    }
    CloseExchange(w, s, t, i, fd, c);
    CloseConnections(w, s, t, i, fd, c);
  }

  /** The connection `new_client` works on is open. */
  lemma Current(w: World, s: State, fd: int) returns (i: nat, c: Conn)
    requires Inv(w, s) && HandFd(s.comm) == {fd}
    ensures fd in s.open && i == s.open[fd] < |s.conns| && c == s.conns[i] == ConnOf(s, fd)
    ensures c.fd == fd >= 0 && !c.shut
    ensures Clean(c) && !s.comm.Insert? ==>
      HandshakeOk(s.comm, c) && fd != Seen(s.selected, c) && !Targets(s.emu, Seen(s.selected, c), fd)
    ensures Clean(c) && s.comm.Insert? ==>
      RegisteredOk(w, s.registry, Seen(s.selected, c), s.comm, s.emu, i, c) && fd != Seen(s.selected, c)
  {
    i := s.open[fd];
    c := s.conns[i];
    assert Clean(c) ==> ConnOk(w, s.registry, Seen(s.selected, c), s.comm, s.emu, i, c);
  }

  lemma VersionAcceptedKeeps(w: World, s: State, fd: int)
    requires Inv(w, s) && s.comm == AwaitVersion(fd) && Incoming(s, fd) == Some([GET_API_VERSION])
    ensures Inv(w, Consume(s, fd).(comm := SendVersion(fd)))
  {
    var i, c := Current(w, s, fd);
    HandshakeKeeps(w, s, Consume(s, fd).(comm := SendVersion(fd)), i);
  }

  lemma VersionRejectedKeeps(w: World, s: State, fd: int)
    requires Inv(w, s) && s.comm == AwaitVersion(fd) && Readable(s, fd) && Incoming(s, fd) != Some([GET_API_VERSION])
    ensures Inv(w, Reject(Consume(s, fd), fd))
  {
    var i, c := Current(w, s, fd);
    var t := Reject(Consume(s, fd), fd);
    RejectKeeps(w, s, t, i, fd, t.conns[i]);
  }

  lemma AwaitVersionKeeps(w: World, s: State, fd: int)
    requires Inv(w, s) && s.comm == AwaitVersion(fd) && Readable(s, fd)
    ensures Inv(w, AwaitVersionDo(s, fd))
  {
    if Incoming(s, fd) == Some([GET_API_VERSION]) {
      VersionAcceptedKeeps(w, s, fd);
    } else {
      VersionRejectedKeeps(w, s, fd);
    }
  }

  /** The daemon writes a frame of the handshake and goes on. */
  lemma GreetKeeps(w: World, s: State, fd: int, m: Msg, comm: Comm)
    requires Inv(w, s) && Writable(s, fd)
    requires || (s.comm == SendVersion(fd) && m == [API_VERSION] && comm == AwaitAid(fd))
             || (s.comm.Acknowledge? && s.comm.fd == fd && m == [EDNA_OK] && comm == Insert(fd, s.comm.aid))
    ensures Inv(w, Push(s, fd, m).(comm := comm))
  {
    var i, c := Current(w, s, fd);
    HandshakeKeeps(w, s, Push(s, fd, m).(comm := comm), i);
  }

  /** Or it cannot, because the client has closed its end. */
  lemma CannotGreetKeeps(w: World, s: State, fd: int)
    requires Inv(w, s) && !Writable(s, fd)
    requires (s.comm.SendVersion? || s.comm.Acknowledge?) && s.comm.fd == fd
    ensures Inv(w, Reject(s, fd))
  {
    var i, c := Current(w, s, fd);
    RejectKeeps(w, s, Reject(s, fd), i, fd, Reject(s, fd).conns[i]);
  }

  lemma SendVersionKeeps(w: World, s: State, fd: int)
    requires Inv(w, s) && s.comm == SendVersion(fd)
    ensures Inv(w, SendVersionDo(s, fd))
  {
    if Writable(s, fd) {
      GreetKeeps(w, s, fd, [API_VERSION], AwaitAid(fd));
    } else {
      CannotGreetKeeps(w, s, fd);
    }
  }

  /** The daemon reads the registration request of a clean client, or its end of file. */
  lemma RequestRead(c: Conn)
    requires Registering(c) && (c.up != [] || c.phase.Closed?)
    ensures c.up != [] && RequestedAid(c.up[0]).Some? ==>
      && RequestedAid(c.up[0]).value == c.aid && SoundAid(c.aid)
      && Owed(c.(up := c.up[1..]), AskedAid)
    ensures c.up != [] && RequestedAid(c.up[0]).None? ==> ShutOk(c.(up := c.up[1..], fd := -1, shut := true))
    ensures c.up == [] ==> ShutOk(c.(fd := -1, shut := true))
  {
    if c.up != [] {
      var m: Msg := c.up[0];
      assert |m| == 1 + |c.aid|;
      RequestedAidOf(c.aid);
    }
  }

  lemma AidAcceptedKeeps(w: World, s: State, fd: int, aid: seq<byte>)
    requires Inv(w, s) && s.comm == AwaitAid(fd)
    requires Incoming(s, fd).Some? && RequestedAid(Incoming(s, fd).value) == Some(aid)
    ensures Inv(w, Consume(s, fd).(comm := Lookup(fd, aid)))
  {
    var i, c := Current(w, s, fd);
    if Clean(c) {
      RequestRead(c);
    }
    HandshakeKeeps(w, s, Consume(s, fd).(comm := Lookup(fd, aid)), i);
  }

  lemma AidRejectedKeeps(w: World, s: State, fd: int)
    requires Inv(w, s) && s.comm == AwaitAid(fd) && Readable(s, fd)
    requires Incoming(s, fd).Some? ==> RequestedAid(Incoming(s, fd).value).None?
    ensures Inv(w, Reject(Consume(s, fd), fd))
  {
    var i, c := Current(w, s, fd);
    if Clean(c) {
      RequestRead(c);
    }
    var t := Reject(Consume(s, fd), fd);
    RejectKeeps(w, s, t, i, fd, t.conns[i]);
  }

  lemma AwaitAidKeeps(w: World, s: State, fd: int)
    requires Inv(w, s) && s.comm == AwaitAid(fd) && Readable(s, fd)
    ensures Inv(w, AwaitAidDo(s, fd))
  {
    var m := Incoming(s, fd);
    if m.Some? && RequestedAid(m.value).Some? {
      AidAcceptedKeeps(w, s, fd, RequestedAid(m.value).value);
    } else {
      AidRejectedKeeps(w, s, fd);
    }
  }

  lemma AbsentKeeps(w: World, s: State, fd: int, aid: seq<byte>)
    requires Inv(w, s) && s.comm == Lookup(fd, aid) && aid !in s.registry
    ensures Inv(w, s.(comm := Acknowledge(fd, aid)))
  {
    var i, c := Current(w, s, fd);
    HandshakeKeeps(w, s, s.(comm := Acknowledge(fd, aid)), i);
  }

  lemma PresentKeeps(w: World, s: State, fd: int, aid: seq<byte>)
    requires Inv(w, s) && s.comm == Lookup(fd, aid) && aid in s.registry && IsOpen(s, fd)
    ensures Inv(w, SetConn(s, s.open[fd], ConnOf(s, fd).(refused := true)).(comm := Refuse(fd)))
  {
    var i, c := Current(w, s, fd);
    HandshakeKeeps(w, s, SetConn(s, s.open[fd], ConnOf(s, fd).(refused := true)).(comm := Refuse(fd)), i);
  }

  lemma LookupKeeps(w: World, s: State, fd: int, aid: seq<byte>)
    requires Inv(w, s) && s.comm == Lookup(fd, aid)
    ensures Inv(w, LookupDo(s, fd, aid))
  {
    var i, c := Current(w, s, fd);
    if aid in s.registry {
      PresentKeeps(w, s, fd, aid);
    } else {
      AbsentKeeps(w, s, fd, aid);
    }
  }

  lemma RejectIs(s: State, fd: int)
    requires IsOpen(s, fd)
    ensures Reject(s, fd) ==
      s.(conns := s.conns[s.open[fd] := Shut(s.emu, ConnOf(s, fd))],
         open := s.open - {fd}, comm := Selecting)
  {
  }

  lemma PushIs(s: State, fd: int, m: Msg)
    requires IsOpen(s, fd)
    ensures exists down :: Push(s, fd, m) == s.(conns := s.conns[s.open[fd] := ConnOf(s, fd).(down := down)])
  {
    var c := ConnOf(s, fd);
    var down := if Writable(s, fd) then c.down + [m] else c.down;
    assert s.conns[s.open[fd] := c] == s.conns;
    assert Push(s, fd, m) == s.(conns := s.conns[s.open[fd] := c.(down := down)]);
  }

  lemma RefusalCloses(s: State, i: nat, fd: int)
    requires IsOpen(s, fd) && i == s.open[fd] && s.conns[i].fd == fd >= 0
    ensures var t := Reject(Push(s, fd, [AID_EXISTS]), fd);
      && t.registry == s.registry && Closes(s, t, i, fd, t.conns[i])
      && t.conns[i] == Shut(s.emu, Push(s, fd, [AID_EXISTS]).conns[i])
  {
    var u := Push(s, fd, [AID_EXISTS]);
    PushIs(s, fd, [AID_EXISTS]);
    RejectIs(u, fd);
    assert u.conns[i := Shut(u.emu, u.conns[i])] == s.conns[i := Shut(u.emu, u.conns[i])];
  }

  lemma RefuseKeeps(w: World, s: State, fd: int)
    requires Inv(w, s) && s.comm == Refuse(fd)
    ensures Inv(w, Reject(Push(s, fd, [AID_EXISTS]), fd))
  {
    var i, c := Current(w, s, fd);
    var t := Reject(Push(s, fd, [AID_EXISTS]), fd);
    RefusalCloses(s, i, fd);
    RejectKeeps(w, s, t, i, fd, t.conns[i]);
  }

  lemma AcknowledgeKeeps(w: World, s: State, fd: int, aid: seq<byte>)
    requires Inv(w, s) && s.comm == Acknowledge(fd, aid)
    ensures Inv(w, AcknowledgeDo(s, fd, aid))
  {
    if Writable(s, fd) {
      GreetKeeps(w, s, fd, [EDNA_OK], Insert(fd, aid));
    } else {
      CannotGreetKeeps(w, s, fd);
    }
  }

  lemma InsertRegistry(s: State, fd: int, aid: seq<byte>)
    requires Registry(s) && Selected(s) && s.comm == Insert(fd, aid)
    ensures var t := s.(registry := s.registry[aid := fd], comm := Selecting); Registry(t) && Selected(t)
  {
    InsertValues(s.registry, aid, fd);
  }

  lemma InsertConnections(w: World, s: State, fd: int, aid: seq<byte>)
    requires Descriptors(s) && Connections(w, s) && s.comm == Insert(fd, aid) && aid !in s.registry
    ensures Connections(w, s.(registry := s.registry[aid := fd], comm := Selecting))
  {
    var t := s.(registry := s.registry[aid := fd], comm := Selecting);
    forall k | 0 <= k < |t.conns| && Clean(t.conns[k])
      ensures ConnOk(w, t.registry, Seen(t.selected, t.conns[k]), t.comm, t.emu, k, t.conns[k])
    {
      assert ConnOk(w, s.registry, Seen(s.selected, s.conns[k]), s.comm, s.emu, k, s.conns[k]);
    }
  }

  lemma InsertKeeps(w: World, s: State, fd: int, aid: seq<byte>)
    requires Inv(w, s) && s.comm == Insert(fd, aid)
    ensures Inv(w, s.(registry := s.registry[aid := fd], comm := Selecting))
  {
    var t := s.(registry := s.registry[aid := fd], comm := Selecting);
    AnswersFrame(w, s, t);
    InsertRegistry(s, fd, aid);
    InsertConnections(w, s, fd, aid);
    assert Exchange(t);
  }

  /** `unregister_by_socket` on a connection whose client, if trusted, has left. */
  lemma UnregisterKeeps(w: World, s: State, fd: int)
    requires Inv(w, s) && s.comm == Dropping(fd)
    ensures Inv(w, Unregister(s, fd).(comm := Selecting))
  {
    if fd in s.registry.Values {
      DropKeeps(w, s, Unregister(s, fd).(comm := Selecting), s.open[fd], fd);
    } else {
      CommMoves(w, s, Selecting);
    }
  }

  lemma DropKeeps(w: World, s: State, t: State, i: nat, fd: int)
    requires Inv(w, s) && s.comm == Dropping(fd) && fd in s.registry.Values && i == s.open[fd]
    requires t == Unregister(s, fd).(comm := Selecting)
    ensures Inv(w, t)
  {
    DropRegistry(s, t, fd);
    DropCloses(s, t, i, fd);
    CloseShape(w, s, t, i, fd, t.conns[i]);
    if Clean(s.conns[i]) {
      assert ConnOk(w, s.registry, Seen(s.selected, s.conns[i]), s.comm, s.emu, i, s.conns[i]);
    }
    CloseExchange(w, s, t, i, fd, t.conns[i]);
    CloseConnections(w, s, t, i, fd, t.conns[i]);
  }

  lemma DropCloses(s: State, t: State, i: nat, fd: int)
    requires fd in s.registry.Values && IsOpen(s, fd) && i == s.open[fd] && s.conns[i].fd == fd >= 0
    requires t == Unregister(s, fd).(comm := Selecting)
    ensures Closes(s, t, i, fd, t.conns[i]) && t.conns[i] == Shut(s.emu, s.conns[i])
  {
  }

  lemma DropRegistry(s: State, t: State, fd: int)
    requires Descriptors(s) && Registry(s) && s.comm == Dropping(fd) && fd in s.registry.Values
    requires t == Unregister(s, fd).(comm := Selecting)
    ensures Registry(t) && t.registry.Values == s.registry.Values - {fd}
  {
    assert fd in s.open.Keys;
    WithoutValues(s.registry, fd);
  }
}

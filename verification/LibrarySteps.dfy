/** The client steps of the step machine are those of the library. */
module LibrarySteps {
  import opened Bytes
  import opened Protocol
  import opened Framing
  import opened System
  import A = Agreement
  import L = EdnaLib
  import F = WireFormat

  /** A client that has asked for the version gets `ver`. */
  function GetsVersion(app: seq<Input> -> Rapdu, c: Conn, ver: Msg): Conn
    requires c.phase.Fresh? && !c.shut
  {
    ClientDo(app, ClientDo(app, c, Write).(down := [ver]), Take)
  }

  /** And one that has asked to be registered then gets `answer`. */
  function GetsAnswer(app: seq<Input> -> Rapdu, c: Conn, answer: Msg): Conn
    requires c.phase.Versioned? && !c.shut && |c.aid| < MAX_FRAME
  {
    ClientDo(app, ClientDo(app, c, Write).(down := [answer]), Take)
  }

  /** Connecting step by step ends as `edna_lib_connect` does, whatever the daemon answers, and the
      same bytes have been written. */
  lemma ConnectsLike(app: seq<Input> -> Rapdu, c: Conn, ver: Msg, answer: Msg, rest: seq<byte>)
    requires c.phase.Fresh? && !c.shut && c.up == [] && |c.aid| < MAX_FRAME
    ensures var (d, rv) := (GetsVersion(app, c, ver), L.ConnectResult(Frame(ver) + (Frame(answer) + rest), c.aid));
      if ver != [0x01] then
        d.phase == Closed(VersionMismatch) && rv == L.ERV_VERSION_MISMATCH && Wire(d.up) == [0x00, 0x01, 0x01]
      else
        && d.phase.Versioned? && !d.shut && d.aid == c.aid
        && var e := GetsAnswer(app, d, answer);
           && Wire(e.up) == A.ClientHandshake(c.aid)
           && (if answer == [0x00] then e.phase.Ready? && rv == L.ERV_OK
               else e.phase == Closed(AlreadyRegistered) && rv == L.ERV_ALREADY_REGISTERED)
  {
    UnframeFrame(ver, Frame(answer) + rest);
    UnframeFrame(answer, rest);
    var get: Msg := [GET_API_VERSION];
    F.ByteFrame([], 0x01);
    assert [get][1..] == [] && Wire([get]) == Frame(get) + Wire([]) == Frame(get);
    if ver == [0x01] {
      SendAppends([get], [REGISTER_AID] + c.aid);
    }
  }

  /** Answering a command step by step is a round of the event loop: the same input, the same reply,
      and the connection is given up at an empty command. */
  lemma AnswersLike(app: seq<Input> -> Rapdu, c: Conn, cmd: Msg)
    requires c.phase.Ready? && !c.shut
    ensures var d := ClientDo(app, c.(down := [cmd]), Take);
      if cmd == [] then d.phase == Closed(Disconnected) && d.hist == c.hist && d.up == c.up
      else
        && d.phase.Busy?
        && var e := ClientDo(app, d, Write);
           && e.phase.Ready? && e.up == c.up + L.Replies(app, c.hist, [cmd]) && e.hist == L.Processed(c.hist, [cmd])
  {
    assert [cmd][1..] == [];
  }
}

/** The step machine carries messages and the daemon's class carries bytes.  Here the queues of a
    part of a run are read as byte streams. */
module OnTheWire {
  import opened Bytes
  import opened Protocol
  import opened Framing
  import opened System
  import opened Invariant
  import opened Runs
  import opened Frames
  import opened Traffic
  import D = CommThread
  import N = Transport

  // ----- What passes through the queues ------------------------------------------------------

  /** What a client writes in a step, and what it takes, read off its queues. */
  function Said(c: Conn, d: Conn): seq<Msg> {
    if |c.up| <= |d.up| then d.up[|c.up|..] else []
  }

  function Heard(c: Conn, d: Conn): seq<Msg> {
    if |d.down| <= |c.down| then c.down[..|c.down| - |d.down|] else []
  }

  lemma ClientQueues(app: seq<Input> -> Rapdu, c: Conn, act: ClientAct)
    requires ClientCan(c, act)
    ensures var d := ClientDo(app, c, act); d.up == c.up + Said(c, d) && c.down == Heard(c, d) + d.down
  {
    var d := ClientDo(app, c, act);
    assert |c.up| <= |d.up| && d.up[..|c.up|] == c.up;
    assert c.down == d.down || (c.down != [] && d.down == c.down[1..]);
  }

  /** Connection `i` is there from state `k` of a run on. */
  ghost predicate There(ss: seq<State>, steps: seq<Step>, k: nat, i: nat) {
    && k <= |steps| && |ss| == |steps| + 1
    && forall j | k <= j < |ss| :: i < |ss[j].conns|
  }

  /** What client `i` writes in steps `k` to `b`. */
  ghost function SaidLater(ss: seq<State>, steps: seq<Step>, k: nat, b: nat, i: nat): seq<Msg>
    requires There(ss, steps, k, i) && k <= b <= |steps|
    decreases b - k
  {
    if k == b then []
    else
      (if steps[k].Client? && steps[k].conn == i then Said(ss[k].conns[i], ss[k + 1].conns[i]) else [])
      + SaidLater(ss, steps, k + 1, b, i)
  }

  /** What client `i` writes in step `k`. */
  function SaidIn(ss: seq<State>, steps: seq<Step>, k: nat, i: nat): seq<Msg>
    requires k < |steps| < |ss| && i < |ss[k].conns| && i < |ss[k + 1].conns|
  {
    if steps[k].Client? && steps[k].conn == i then Said(ss[k].conns[i], ss[k + 1].conns[i]) else []
  }

  /** What client `i` takes in steps `a` to `k`. */
  ghost function HeardSince(ss: seq<State>, steps: seq<Step>, a: nat, k: nat, i: nat): seq<Msg>
    requires There(ss, steps, a, i) && a <= k <= |steps|
  {
    if k == a then []
    else
      HeardSince(ss, steps, a, k - 1, i)
      + if steps[k - 1].Client? && steps[k - 1].conn == i then Heard(ss[k - 1].conns[i], ss[k].conns[i]) else []
  }

  /** What the daemon has still to read from client `i` in state `k`, up to state `b`. */
  ghost function Inbox(ss: seq<State>, steps: seq<Step>, k: nat, b: nat, i: nat): seq<Msg>
    requires There(ss, steps, k, i) && k <= b <= |steps|
  {
    ss[k].conns[i].up + SaidLater(ss, steps, k, b, i)
  }

  /** What the daemon has written to client `i` since state `a`, with what was unread then. */
  ghost function Outbox(ss: seq<State>, steps: seq<Step>, a: nat, k: nat, i: nat): seq<Msg>
    requires There(ss, steps, a, i) && a <= k <= |steps|
  {
    HeardSince(ss, steps, a, k, i) + ss[k].conns[i].down
  }

  /** A part of a run, from state `a` to state `b`, and the descriptors open at its start. */
  datatype Part = Part(ss: seq<State>, steps: seq<Step>, a: nat, b: nat, fds: map<int, nat>)

  ghost predicate IsPart(p: Part) {
    && |p.ss| == |p.steps| + 1 && p.a <= p.b <= |p.steps|
    && (forall fd | fd in p.fds :: There(p.ss, p.steps, p.a, p.fds[fd]))
    && (forall fd, fd' | fd in p.fds && fd' in p.fds && p.fds[fd] == p.fds[fd'] :: fd == fd')
  }

  /** What is still to be read from a descriptor, and what has been written to it, in bytes. */
  ghost function InAt(p: Part, k: nat, fd: int): seq<byte>
    requires IsPart(p) && p.a <= k <= p.b && fd in p.fds
  {
    Wire(Inbox(p.ss, p.steps, k, p.b, p.fds[fd]))
  }

  ghost function OutAt(p: Part, k: nat, fd: int): seq<byte>
    requires IsPart(p) && p.a <= k <= p.b && fd in p.fds
  {
    Wire(Outbox(p.ss, p.steps, p.a, k, p.fds[fd]))
  }

  ghost function StreamsAt(p: Part, k: nat): D.Streams
    requires IsPart(p) && p.a <= k <= p.b
  {
    D.Streams(map fd | fd in p.fds :: InAt(p, k, fd), map fd | fd in p.fds :: OutAt(p, k, fd))
  }

  /** The daemon in state `k`, with the queues of its sockets as streams of bytes. */
  ghost function DaemonAt(p: Part, k: nat): D.Daemon
    requires IsPart(p) && p.a <= k <= p.b
  {
    D.Daemon(p.ss[k].registry, p.ss[k].selected, p.ss[k].open.Keys, StreamsAt(p, k))
  }

  // ----- Steps and queues --------------------------------------------------------------------

  ghost predicate Still(s: State, t: State) {
    && |t.conns| >= |s.conns|
    && forall j | 0 <= j < |s.conns| :: t.conns[j].up == s.conns[j].up && t.conns[j].down == s.conns[j].down
  }

  /** The daemon writes one message to connection `i`. */
  ghost predicate Wrote(s: State, t: State, i: nat, m: Msg) {
    && i < |s.conns| == |t.conns|
    && forall j | 0 <= j < |s.conns| ::
         && t.conns[j].up == s.conns[j].up
         && t.conns[j].down == if j == i then s.conns[j].down + [m] else s.conns[j].down
  }

  /** The daemon reads one message from connection `i`. */
  ghost predicate ReadOne(s: State, t: State, i: nat, m: Msg) {
    && i < |s.conns| == |t.conns| && s.conns[i].up != [] && s.conns[i].up[0] == m
    && forall j | 0 <= j < |s.conns| ::
         && t.conns[j].down == s.conns[j].down
         && t.conns[j].up == if j == i then s.conns[j].up[1..] else s.conns[j].up
  }

  lemma StillBoxes(ss: seq<State>, steps: seq<Step>, a: nat, k: nat, b: nat, i: nat)
    requires There(ss, steps, a, i) && a <= k < b <= |steps| && !steps[k].Client?
    requires ss[k + 1].conns[i].up == ss[k].conns[i].up && ss[k + 1].conns[i].down == ss[k].conns[i].down
    ensures Inbox(ss, steps, k + 1, b, i) == Inbox(ss, steps, k, b, i)
    ensures Outbox(ss, steps, a, k + 1, i) == Outbox(ss, steps, a, k, i)
  {
    assert SaidLater(ss, steps, k, b, i) == SaidLater(ss, steps, k + 1, b, i);
    assert HeardSince(ss, steps, a, k + 1, i) == HeardSince(ss, steps, a, k, i);
  }

  lemma ClientBoxes(w: World, ss: seq<State>, steps: seq<Step>, a: nat, k: nat, b: nat, i: nat)
    requires There(ss, steps, a, i) && a <= k < b <= |steps| && steps[k].Client?
    requires Can(w, ss[k], steps[k]) && ss[k + 1] == Do(w, ss[k], steps[k])
    ensures Inbox(ss, steps, k + 1, b, i) == Inbox(ss, steps, k, b, i)
    ensures Outbox(ss, steps, a, k + 1, i) == Outbox(ss, steps, a, k, i)
  {
    var c, d := ss[k].conns[i], ss[k + 1].conns[i];
    if steps[k].conn == i {
      ClientQueues(w.apps(i), c, steps[k].cact);
      Assoc(c.up, Said(c, d), SaidLater(ss, steps, k + 1, b, i));
      Assoc(HeardSince(ss, steps, a, k, i), Heard(c, d), d.down);
    } else {
      assert SaidLater(ss, steps, k, b, i) == SaidLater(ss, steps, k + 1, b, i);
      assert HeardSince(ss, steps, a, k + 1, i) == HeardSince(ss, steps, a, k, i);
    }
  }

  lemma WroteBoxes(ss: seq<State>, steps: seq<Step>, a: nat, k: nat, b: nat, i: nat, m: Msg)
    requires There(ss, steps, a, i) && a <= k < b <= |steps| && !steps[k].Client?
    requires ss[k + 1].conns[i].up == ss[k].conns[i].up && ss[k + 1].conns[i].down == ss[k].conns[i].down + [m]
    ensures Inbox(ss, steps, k + 1, b, i) == Inbox(ss, steps, k, b, i)
    ensures Outbox(ss, steps, a, k + 1, i) == Outbox(ss, steps, a, k, i) + [m]
  {
    assert SaidLater(ss, steps, k, b, i) == SaidLater(ss, steps, k + 1, b, i);
    assert HeardSince(ss, steps, a, k + 1, i) == HeardSince(ss, steps, a, k, i);
  }

  lemma ReadBoxes(ss: seq<State>, steps: seq<Step>, a: nat, k: nat, b: nat, i: nat, m: Msg)
    requires There(ss, steps, a, i) && a <= k < b <= |steps| && !steps[k].Client?
    requires ss[k].conns[i].up != [] && ss[k].conns[i].up[0] == m
    requires ss[k + 1].conns[i].up == ss[k].conns[i].up[1..] && ss[k + 1].conns[i].down == ss[k].conns[i].down
    ensures Inbox(ss, steps, k, b, i) == [m] + Inbox(ss, steps, k + 1, b, i)
    ensures Outbox(ss, steps, a, k + 1, i) == Outbox(ss, steps, a, k, i)
  {
    assert SaidLater(ss, steps, k, b, i) == SaidLater(ss, steps, k + 1, b, i);
    assert HeardSince(ss, steps, a, k + 1, i) == HeardSince(ss, steps, a, k, i);
    assert ss[k].conns[i].up == [m] + ss[k + 1].conns[i].up;
    Assoc([m], ss[k + 1].conns[i].up, SaidLater(ss, steps, k + 1, b, i));
  }

  // ----- Steps and streams -------------------------------------------------------------------

  lemma StillAt(p: Part, k: nat, fd: int)
    requires IsPart(p) && p.a <= k < p.b && fd in p.fds && !p.steps[k].Client?
    requires var (c, d) := (p.ss[k].conns[p.fds[fd]], p.ss[k + 1].conns[p.fds[fd]]); d.up == c.up && d.down == c.down
    ensures InAt(p, k + 1, fd) == InAt(p, k, fd) && OutAt(p, k + 1, fd) == OutAt(p, k, fd)
  {
    StillBoxes(p.ss, p.steps, p.a, k, p.b, p.fds[fd]);
  }

  lemma ClientAt(w: World, p: Part, k: nat, fd: int)
    requires IsPart(p) && p.a <= k < p.b && fd in p.fds && p.steps[k].Client?
    requires Can(w, p.ss[k], p.steps[k]) && p.ss[k + 1] == Do(w, p.ss[k], p.steps[k])
    ensures InAt(p, k + 1, fd) == InAt(p, k, fd) && OutAt(p, k + 1, fd) == OutAt(p, k, fd)
  {
    ClientBoxes(w, p.ss, p.steps, p.a, k, p.b, p.fds[fd]);
  }

  lemma WroteAt(p: Part, k: nat, fd: int, m: Msg)
    requires IsPart(p) && p.a <= k < p.b && fd in p.fds && !p.steps[k].Client?
    requires var (c, d) := (p.ss[k].conns[p.fds[fd]], p.ss[k + 1].conns[p.fds[fd]]);
      d.up == c.up && d.down == c.down + [m]
    ensures InAt(p, k + 1, fd) == InAt(p, k, fd) && OutAt(p, k + 1, fd) == OutAt(p, k, fd) + Frame(m)
  {
    WroteBoxes(p.ss, p.steps, p.a, k, p.b, p.fds[fd], m);
    SendAppends(Outbox(p.ss, p.steps, p.a, k, p.fds[fd]), m);
  }

  lemma ReadAt(p: Part, k: nat, fd: int, m: Msg)
    requires IsPart(p) && p.a <= k < p.b && fd in p.fds && !p.steps[k].Client?
    requires var (c, d) := (p.ss[k].conns[p.fds[fd]], p.ss[k + 1].conns[p.fds[fd]]);
      c.up != [] && c.up[0] == m && d.up == c.up[1..] && d.down == c.down
    ensures Unframe(InAt(p, k, fd)) == Some((m, InAt(p, k + 1, fd))) && OutAt(p, k + 1, fd) == OutAt(p, k, fd)
  {
    var later := Inbox(p.ss, p.steps, k + 1, p.b, p.fds[fd]);
    ReadBoxes(p.ss, p.steps, p.a, k, p.b, p.fds[fd], m);
    ReceiveTakesHead([m] + later);
    assert ([m] + later)[1..] == later;
  }

  lemma SameMap<V>(before: map<int, V>, after: map<int, V>)
    requires after.Keys == before.Keys
    requires forall fd | fd in before.Keys :: after[fd] == before[fd]
    ensures after == before
  {
    assert forall fd :: fd in after.Keys <==> fd in before.Keys;
    assert forall fd :: fd in after <==> fd in before;
    assert forall fd | fd in after :: after[fd] == before[fd];
  }

  lemma LongerAt(before: map<int, seq<byte>>, after: map<int, seq<byte>>, fd: int, more: seq<byte>)
    requires after.Keys == before.Keys && fd in before && after[fd] == before[fd] + more
    requires forall f | f in before && f != fd :: after[f] == before[f]
    ensures after == before[fd := before[fd] + more]
  {
    var expected := before[fd := before[fd] + more];
    assert expected.Keys == before.Keys;
    SameMap(expected, after);
  }

  /** Nothing passes. */
  lemma StillStreams(p: Part, k: nat)
    requires IsPart(p) && p.a <= k < p.b && !p.steps[k].Client? && Still(p.ss[k], p.ss[k + 1])
    ensures StreamsAt(p, k + 1) == StreamsAt(p, k)
  {
    forall fd | fd in p.fds
      ensures StreamsAt(p, k + 1).rx[fd] == StreamsAt(p, k).rx[fd]
      ensures StreamsAt(p, k + 1).tx[fd] == StreamsAt(p, k).tx[fd]
    {
      StillAt(p, k, fd);
    }
    SameMap(StreamsAt(p, k).rx, StreamsAt(p, k + 1).rx);
    SameMap(StreamsAt(p, k).tx, StreamsAt(p, k + 1).tx);
  }

  /** A client moves: seen from the end of the part, the streams are as they were. */
  lemma ClientStreams(w: World, p: Part, k: nat)
    requires IsPart(p) && p.a <= k < p.b && p.steps[k].Client?
    requires Can(w, p.ss[k], p.steps[k]) && p.ss[k + 1] == Do(w, p.ss[k], p.steps[k])
    ensures StreamsAt(p, k + 1) == StreamsAt(p, k)
  {
    forall fd | fd in p.fds
      ensures StreamsAt(p, k + 1).rx[fd] == StreamsAt(p, k).rx[fd]
      ensures StreamsAt(p, k + 1).tx[fd] == StreamsAt(p, k).tx[fd]
    {
      ClientAt(w, p, k, fd);
    }
    SameMap(StreamsAt(p, k).rx, StreamsAt(p, k + 1).rx);
    SameMap(StreamsAt(p, k).tx, StreamsAt(p, k + 1).tx);
  }

  /** A message the daemon writes is a frame at the end of one stream. */
  lemma WroteStreams(p: Part, k: nat, fd: int, m: Msg)
    requires IsPart(p) && p.a <= k < p.b && !p.steps[k].Client? && fd in p.fds
    requires Wrote(p.ss[k], p.ss[k + 1], p.fds[fd], m)
    ensures WritesFrame(StreamsAt(p, k), StreamsAt(p, k + 1), fd, m)
  {
    forall f | f in p.fds
      ensures StreamsAt(p, k + 1).rx[f] == StreamsAt(p, k).rx[f]
      ensures StreamsAt(p, k + 1).tx[f] == StreamsAt(p, k).tx[f] + if f == fd then Frame(m) else []
    {
      if f == fd {
        WroteAt(p, k, fd, m);
      } else {
        StillAt(p, k, f);
      }
    }
    SameMap(StreamsAt(p, k).rx, StreamsAt(p, k + 1).rx);
    LongerAt(StreamsAt(p, k).tx, StreamsAt(p, k + 1).tx, fd, Frame(m));
  }

  /** A message the daemon reads is the frame at the head of one stream. */
  lemma ReadStreams(p: Part, k: nat, fd: int, m: Msg)
    requires IsPart(p) && p.a <= k < p.b && !p.steps[k].Client? && fd in p.fds
    requires ReadOne(p.ss[k], p.ss[k + 1], p.fds[fd], m)
    ensures ReadsFrame(StreamsAt(p, k), StreamsAt(p, k + 1), fd, m)
  {
    forall f | f in p.fds
      ensures StreamsAt(p, k + 1).tx[f] == StreamsAt(p, k).tx[f]
      ensures f != fd ==> StreamsAt(p, k + 1).rx[f] == StreamsAt(p, k).rx[f]
    {
      ReadElsewhere(p, k, fd, m, f);
    }
    SameMap(StreamsAt(p, k).tx, StreamsAt(p, k + 1).tx);
    ReadAt(p, k, fd, m);
  }

  lemma ReadElsewhere(p: Part, k: nat, fd: int, m: Msg, f: int)
    requires IsPart(p) && p.a <= k < p.b && !p.steps[k].Client? && fd in p.fds && f in p.fds
    requires ReadOne(p.ss[k], p.ss[k + 1], p.fds[fd], m)
    ensures OutAt(p, k + 1, f) == OutAt(p, k, f) && (f != fd ==> InAt(p, k + 1, f) == InAt(p, k, f))
  {
    if f == fd {
      ReadAt(p, k, fd, m);
    } else {
      StillAt(p, k, f);
    }
  }

  predicate HasWritten(d: D.Daemon, d': D.Daemon, fd: int, m: Msg) {
    && fd in d.streams.tx
    && d' == d.(streams := d.streams.(tx := d.streams.tx[fd := d.streams.tx[fd] + Frame(m)]))
  }

  predicate HasRead(d: D.Daemon, d': D.Daemon, fd: int, m: Msg) {
    && d' == d.(streams := d'.streams) && d'.streams.tx == d.streams.tx
    && N.OnlyAt(d.streams.rx, d'.streams.rx, fd)
    && fd in d.streams.rx && fd in d'.streams.rx && Unframe(d.streams.rx[fd]) == Some((m, d'.streams.rx[fd]))
  }

  /** State and streams move together: `d` and `d'` are the daemon on the wire in `s` and `t`. */
  ghost predicate Linked(fds: map<int, nat>, s: State, t: State, d: D.Daemon, d': D.Daemon) {
    && d.registry == s.registry && d.selected == s.selected && d.open == s.open.Keys
    && d'.registry == t.registry && d'.selected == t.selected && d'.open == t.open.Keys
    && (Still(s, t) ==> d'.streams == d.streams)
    && (forall fd, m: Msg | fd in fds && Wrote(s, t, fds[fd], m) :: WritesFrame(d.streams, d'.streams, fd, m))
    && (forall fd, m: Msg | fd in fds && ReadOne(s, t, fds[fd], m) :: ReadsFrame(d.streams, d'.streams, fd, m))
  }

  predicate WritesFrame(d: D.Streams, d': D.Streams, fd: int, m: Msg) {
    fd in d.tx && d' == d.(tx := d.tx[fd := d.tx[fd] + Frame(m)])
  }

  predicate ReadsFrame(d: D.Streams, d': D.Streams, fd: int, m: Msg) {
    && d'.tx == d.tx && N.OnlyAt(d.rx, d'.rx, fd)
    && fd in d.rx && Unframe(d.rx[fd]) == Some((m, d'.rx[fd]))
  }

  lemma StepLinks(p: Part, k: nat)
    requires IsPart(p) && p.a <= k < p.b && !p.steps[k].Client?
    ensures Linked(p.fds, p.ss[k], p.ss[k + 1], DaemonAt(p, k), DaemonAt(p, k + 1))
  {
    var s, t, fds, d, d' := p.ss[k], p.ss[k + 1], p.fds, DaemonAt(p, k).streams, DaemonAt(p, k + 1).streams;
    if Still(s, t) {
      StillStreams(p, k);
    }
    forall fd, m: Msg | fd in fds && Wrote(s, t, fds[fd], m)
      ensures WritesFrame(d, d', fd, m)
    {
      WroteStreams(p, k, fd, m);
    }
    forall fd, m: Msg | fd in fds && ReadOne(s, t, fds[fd], m)
      ensures ReadsFrame(d, d', fd, m)
    {
      ReadStreams(p, k, fd, m);
    }
  }

  // ----- Clients -----------------------------------------------------------------------------

  predicate EndClosed(s: State, i: nat) {
    i < |s.conns| && s.conns[i].phase.Closed?
  }

  /** The client has not closed its end before the end of the part. */
  ghost predicate Lives(p: Part, fd: int)
    requires IsPart(p) && fd in p.fds
  {
    !p.ss[p.b].conns[p.fds[fd]].phase.Closed?
  }

  /** A closed end stays closed. */
  lemma StaysClosed(w: World, s: State, step: Step, i: nat)
    requires Descriptors(s) && Can(w, s, step) && i < |s.conns| && EndClosed(s, i)
    ensures EndClosed(Do(w, s, step), i)
  {
    match step {
      case Join(_, _) =>
      case Client(_, _) =>
      case Communication(act) =>
        assert act.Accept? ==> s.backlog[0] in s.backlog;
        CommGreets(s, act, i);
      case Emulator(act) => EmuSends(s, w.less, act, i);
    }
  }

  lemma {:induction false} ClosedToTheEnd(w: World, p: Part, fd: int, k: nat)
    requires IsRun(w, p.ss, p.steps) && IsPart(p) && fd in p.fds && p.a <= k <= p.b
    requires EndClosed(p.ss[k], p.fds[fd])
    ensures !Lives(p, fd)
    decreases p.b - k
  {
    if k < p.b {
      RunKeeps(w, p.ss, p.steps, k);
      StaysClosed(w, p.ss[k], p.steps[k], p.fds[fd]);
      assert p.ss[k + 1] == Do(w, p.ss[k], p.steps[k]);
      ClosedToTheEnd(w, p, fd, k + 1);
    }
  }

  /** Steps of clients leave the daemon, seen from the end of the part, as it was. */
  lemma ClientsAside(w: World, p: Part, k: nat)
    requires IsPart(p) && p.a <= k < p.b && (p.steps[k].Client? || p.steps[k].Join?)
    requires Can(w, p.ss[k], p.steps[k]) && p.ss[k + 1] == Do(w, p.ss[k], p.steps[k])
    ensures DaemonAt(p, k + 1) == DaemonAt(p, k)
    ensures var s, t := p.ss[k], p.ss[k + 1];
      t.comm == s.comm && t.emu == s.emu && t.open == s.open && t.answers == s.answers
  {
    if p.steps[k].Client? {
      ClientStreams(w, p, k);
    } else {
      StillStreams(p, k);
    }
  }

  // ----- Parts of runs -----------------------------------------------------------------------

  lemma ConnsStay(w: World, s: State, step: Step)
    requires Can(w, s, step)
    ensures |s.conns| <= |Do(w, s, step).conns|
  {
    match step {
      case Join(_, _) =>
      case Client(_, _) =>
      case Communication(act) => CommUntouched(s, act);
      case Emulator(act) =>
        match act {
          case Proceed => ProceedMovesOn(s, w.less);
          case Visit(aid) => VisitMovesOn(s, w.less, aid);
          case PowerEvent(_) =>
          case Ask(_) =>
          case PassDone =>
        }
    }
  }

  lemma {:induction false} ConnsStayThere(ss: seq<State>, a: nat, j: nat)
    requires a <= j < |ss| && forall k | a <= k < j :: |ss[k].conns| <= |ss[k + 1].conns|
    ensures |ss[a].conns| <= |ss[j].conns|
  {
    if a < j {
      ConnsStayThere(ss, a, j - 1);
      assert |ss[j - 1].conns| <= |ss[j - 1 + 1].conns|;
    }
  }

  lemma ConnsStayInRun(w: World, ss: seq<State>, steps: seq<Step>)
    requires IsRun(w, ss, steps)
    ensures forall k | 0 <= k < |steps| :: |ss[k].conns| <= |ss[k + 1].conns|
  {
    forall k | 0 <= k < |steps|
      ensures |ss[k].conns| <= |ss[k + 1].conns|
    {
      ConnsStay(w, ss[k], steps[k]);
    }
  }

  /** Every part of every run can be read as bytes. */
  lemma PartOf(w: World, ss: seq<State>, steps: seq<Step>, a: nat, b: nat)
    requires IsRun(w, ss, steps) && a <= b <= |steps|
    ensures IsPart(Part(ss, steps, a, b, ss[a].open))
  {
    RunKeeps(w, ss, steps, a);
    ConnsStayInRun(w, ss, steps);
    forall fd | fd in ss[a].open
      ensures There(ss, steps, a, ss[a].open[fd])
    {
      forall j | a <= j < |ss|
        ensures ss[a].open[fd] < |ss[j].conns|
      {
        ConnsStayThere(ss, a, j);
      }
    }
  }
}

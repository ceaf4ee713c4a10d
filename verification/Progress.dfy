/** The emulator thread is never stuck on a client that does its part, and a client can leave. */
module Progress {
  import opened Bytes
  import opened Protocol
  import opened System
  import opened Invariant
  import opened ClientSteps
  import opened EmuSteps
  import opened Frames
  import opened Runs
  import T = Theorems

  /** The steps `acts` can be taken from `s`, one after the other, and end in `t`. */
  ghost predicate Leads(w: World, s: State, acts: seq<Step>, t: State)
    decreases |acts|
  {
    if acts == [] then s == t else Can(w, s, acts[0]) && Leads(w, Do(w, s, acts[0]), acts[1..], t)
  }

  lemma LeadsOn(w: World, s: State, step: Step, acts: seq<Step>, t: State)
    requires Can(w, s, step) && Leads(w, Do(w, s, step), acts, t)
    ensures Leads(w, s, [step] + acts, t)
  {
    assert ([step] + acts)[1..] == acts;
  }

  lemma {:induction false} LeadsLast(w: World, s: State, acts: seq<Step>, t: State, step: Step)
    requires Leads(w, s, acts, t) && Can(w, t, step)
    ensures Leads(w, s, acts + [step], Do(w, t, step))
    decreases |acts|
  {
    if acts == [] {
      assert [step][1..] == [];
    } else {
      LeadsLast(w, Do(w, s, acts[0]), acts[1..], t, step);
      assert (acts + [step])[1..] == acts[1..] + [step];
    }
  }

  /** The descriptor the emulator thread waits on. */
  function AwaitedFd(s: State): int {
    if s.emu.PowerSent? then s.emu.fd else s.selected
  }

  /** A response is awaited from connection `i`, a clean client that has not begun to leave. */
  ghost predicate Awaits(s: State, i: nat) {
    && (s.emu.Sent? || s.emu.PowerSent?)
    && IsOpen(s, AwaitedFd(s)) && s.open[AwaitedFd(s)] == i
    && Clean(s.conns[i]) && !HasLeft(s.conns[i])
  }

  /** How many steps of its own the client is from having answered. */
  function Distance(c: Conn): nat {
    match c.phase
    case AskedAid => 3
    case Ready => if c.up == [] then 2 else 0
    case Busy(_) => 1
    case _ => 0
  }

  function NextOf(c: Conn): ClientAct {
    if c.phase.Busy? then Write else Take
  }

  /** Its next step takes the client nearer. */
  lemma StepNearer(w: World, s: State, i: nat)
    requires Inv(w, s) && Awaits(s, i) && s.conns[i].up == []
    ensures Can(w, s, Client(i, NextOf(s.conns[i])))
    ensures var t := Do(w, s, Client(i, NextOf(s.conns[i])));
      && Inv(w, t) && Awaits(t, i) && Distance(t.conns[i]) < Distance(s.conns[i])
      && t == s.(conns := t.conns)
  {
    var c := s.conns[i];
    assert ConnOk(w, s.registry, Seen(s.selected, c), s.comm, s.emu, i, c);
    assert Seen(s.selected, c) == s.selected;
    Nearer(w, s.emu, i, c);
    ClientFrame(w.apps(i), c, NextOf(c));
    ClientKeeps(w, s, i, NextOf(c));
  }

  lemma Nearer(w: World, emu: Emu, i: nat, c: Conn)
    requires InFlight(w, emu, i, c) && !HasLeft(c) && c.up == [] && !c.shut
    ensures ClientCan(c, NextOf(c))
    ensures var d := ClientDo(w.apps(i), c, NextOf(c)); !HasLeft(d) && Distance(d) < Distance(c)
  {
  }

  /** The client's own steps lead to its answer. */
  lemma {:induction false} AnswerComes(w: World, s: State, i: nat) returns (acts: seq<Step>, t: State)
    requires Inv(w, s) && Awaits(s, i)
    ensures Leads(w, s, acts, t) && Inv(w, t) && Awaits(t, i) && t.conns[i].up != [] && t == s.(conns := t.conns)
    ensures forall x | x in acts :: x.Client? && x.conn == i
    decreases Distance(s.conns[i])
  {
    if s.conns[i].up != [] {
      acts, t := [], s;
    } else {
      var step := Client(i, NextOf(s.conns[i]));
      StepNearer(w, s, i);
      acts, t := AnswerComes(w, Do(w, s, step), i);
      LeadsOn(w, s, step, acts, t);
      acts := [step] + acts;
    }
  }

  /** A continuation by client `i` and the emulator thread only. */
  predicate ByThem(acts: seq<Step>, i: nat) {
    forall x | x in acts :: x == Emulator(Proceed) || (x.Client? && x.conn == i)
  }

  /** From every reachable state in which a call waits for a clean client that has not begun to
      leave, that client's own steps and one of the emulator thread complete the call, with the
      client's response. */
  lemma CallCanEnd(w: World, ss: seq<State>, steps: seq<Step>, k: nat, i: nat)
    requires IsRun(w, ss, steps) && k < |ss| && ss[k].emu.Sent? && Awaits(ss[k], i)
    ensures exists acts, t ::
      && Leads(w, ss[k], acts, t) && ByThem(acts, i) && t.emu.Idle?
      && t.answers == ss[k].answers + [Answer(ss[k].emu.apdu, ss[k].emu.card,
           Some(w.apps(i)(ss[k].emu.before + [Received(ss[k].emu.apdu)])), ss[k].reused)]
  {
    RunKeeps(w, ss, steps, k);
    var acts, t := AnswerComes(w, ss[k], i);
    AnswerEnds(w, t, i);
    LeadsLast(w, ss[k], acts, t, Emulator(Proceed));
    assert ByThem(acts + [Emulator(Proceed)], i);
  }

  lemma AnswerEnds(w: World, s: State, i: nat)
    requires Inv(w, s) && s.emu.Sent? && Awaits(s, i) && s.conns[i].up != []
    ensures Can(w, s, Emulator(Proceed))
    ensures var t := Do(w, s, Emulator(Proceed));
      && t.emu.Idle?
      && t.answers == s.answers + [Answer(s.emu.apdu, s.emu.card,
           Some(w.apps(i)(s.emu.before + [Received(s.emu.apdu)])), s.reused)]
  {
    ResponseIsAnswer(w, s);
    ProceedMovesOn(s, w.less);
  }

  /** The same for a power pass: it goes on. */
  lemma PassCanGoOn(w: World, ss: seq<State>, steps: seq<Step>, k: nat, i: nat)
    requires IsRun(w, ss, steps) && k < |ss| && ss[k].emu.PowerSent? && Awaits(ss[k], i)
    ensures exists acts, t ::
      Leads(w, ss[k], acts, t) && ByThem(acts, i) && t.emu == Power(ss[k].emu.kind, ss[k].emu.last)
  {
    RunKeeps(w, ss, steps, k);
    var acts, t := AnswerComes(w, ss[k], i);
    LeadsLast(w, ss[k], acts, t, Emulator(Proceed));
    assert ByThem(acts + [Emulator(Proceed)], i);
    assert Do(w, t, Emulator(Proceed)).emu == Power(ss[k].emu.kind, ss[k].emu.last);
  }

  // ----- Leaving -----------------------------------------------------------------------------

  /** The steps by which a client that leaves is dropped: its own, and three of the daemon. */
  function LeavingSteps(i: nat, fd: int): seq<Step> {
    [Client(i, Quit), Communication(SelectReady({fd})), Communication(Handle(fd)), Communication(Advance)]
  }

  /** From every reachable state with the communications thread waiting and the mutex free, a
      trusted client that calls `edna_lib_disconnect` can be dropped at once: by its DISCONNECT,
      and exactly its AID and its descriptor go. */
  lemma LeavingIsServed(w: World, ss: seq<State>, steps: seq<Step>, k: nat, aid: seq<byte>)
    requires IsRun(w, ss, steps) && k < |ss| && aid in ss[k].registry && IsOpen(ss[k], ss[k].registry[aid])
    requires ss[k].comm.Selecting? && !Held(ss[k])
    requires Trusted(ConnOf(ss[k], ss[k].registry[aid])) && ConnOf(ss[k], ss[k].registry[aid]).phase.Ready?
    ensures var (s, fd) := (ss[k], ss[k].registry[aid]);
      exists t ::
        && Leads(w, s, LeavingSteps(s.open[fd], fd), t)
        && t.registry == s.registry - {aid} && t.open == s.open - {fd} && t.comm.Selecting?
  {
    var s, fd := ss[k], ss[k].registry[aid];
    RunKeeps(w, ss, steps, k);
    T.Lockstep(w, ss, steps, k, aid);
    var s1 := QuitSays(w, s, s.open[fd]);
    var s2, s3, t := DisconnectServed(w, s1, aid, fd);
    FourSteps(w, s, s1, s2, s3, t, s.open[fd], fd);
  }

  lemma QuitSays(w: World, s: State, i: nat) returns (t: State)
    requires i < |s.conns| && s.conns[i].phase.Ready? && !s.conns[i].shut && s.conns[i].up == []
    ensures Can(w, s, Client(i, Quit)) && t == Do(w, s, Client(i, Quit))
    ensures t == s.(conns := t.conns) && |t.conns| == |s.conns| && t.conns[i].up == [[0x03]]
  {
    t := Do(w, s, Client(i, Quit));
  }

  lemma DisconnectServed(w: World, s: State, aid: seq<byte>, fd: int) returns (s2: State, s3: State, t: State)
    requires aid in s.registry && s.registry[aid] == fd && IsOpen(s, fd) && ConnOf(s, fd).up == [[0x03]]
    requires s.comm.Selecting? && !Held(s) && Injective(s.registry)
    ensures Can(w, s, Communication(SelectReady({fd}))) && s2 == Do(w, s, Communication(SelectReady({fd})))
    ensures Can(w, s2, Communication(Handle(fd))) && s3 == Do(w, s2, Communication(Handle(fd)))
    ensures Can(w, s3, Communication(Advance)) && t == Do(w, s3, Communication(Advance))
    ensures t.registry == s.registry - {aid} && t.open == s.open - {fd} && t.comm.Selecting?
  {
    assert fd in s.registry.Values;
    s2 := s.(comm := Serving({fd}));
    s3 := Consume(s2, fd).(comm := Dropping(fd));
    t := Unregister(s3, fd).(comm := Selecting);
    assert Without(s.registry, fd) == s.registry - {aid};
  }

  lemma FourSteps(w: World, s: State, s1: State, s2: State, s3: State, t: State, i: nat, fd: int)
    requires Can(w, s, Client(i, Quit)) && s1 == Do(w, s, Client(i, Quit))
    requires Can(w, s1, Communication(SelectReady({fd}))) && s2 == Do(w, s1, Communication(SelectReady({fd})))
    requires Can(w, s2, Communication(Handle(fd))) && s3 == Do(w, s2, Communication(Handle(fd)))
    requires Can(w, s3, Communication(Advance)) && t == Do(w, s3, Communication(Advance))
    ensures Leads(w, s, LeavingSteps(i, fd), t)
  {
    assert Leads(w, t, [], t);
    LeadsOn(w, s3, Communication(Advance), [], t);
    LeadsOn(w, s2, Communication(Handle(fd)), [Communication(Advance)], t);
    LeadsOn(w, s1, Communication(SelectReady({fd})), [Communication(Handle(fd)), Communication(Advance)], t);
    LeadsOn(w, s, Client(i, Quit),
            [Communication(SelectReady({fd})), Communication(Handle(fd)), Communication(Advance)], t);
    assert [Communication(Advance)] + [] == [Communication(Advance)];
    assert [Client(i, Quit)] + [Communication(SelectReady({fd})), Communication(Handle(fd)), Communication(Advance)]
        == LeavingSteps(i, fd);
  }
}

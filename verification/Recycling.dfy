/** Why the card's guarantees name recycled descriptors: a run in which a command APDU meant for a
    client that is gone reaches one that has not even begun its handshake. */
module Recycling {
  import opened Bytes
  import opened Protocol
  import opened System

  ghost predicate Reachable(w: World, s: State) {
    exists ss, steps :: IsRun(w, ss, steps) && ss[|steps|] == s
  }

  lemma Start(w: World)
    ensures Reachable(w, INITIAL)
  {
    var steps: seq<Step> := [];
    assert IsRun(w, [INITIAL], steps) && [INITIAL][|steps|] == INITIAL;
  }

  /** What can happen next in a reachable state leads to a reachable one. */
  lemma Next(w: World, s: State, step: Step)
    requires Reachable(w, s) && Can(w, s, step)
    ensures Reachable(w, Do(w, s, step))
  {
    var ss, steps :| IsRun(w, ss, steps) && ss[|steps|] == s;
    var ss', steps' := ss + [Do(w, s, step)], steps + [step];
    assert IsRun(w, ss', steps') by {
      forall k | 0 <= k < |steps'|
        ensures Can(w, ss'[k], steps'[k]) && ss'[k + 1] == Do(w, ss'[k], steps'[k])
      {
        if k < |steps| {
          assert ss[k + 1] == Do(w, ss[k], steps[k]);
        }
      }
    }
    assert ss'[|steps'|] == Do(w, s, step);
  }

  // ----- The run -----------------------------------------------------------------------------

  const AID: seq<byte> := [0xaa]
  const SELECT: seq<byte> := BuildSelect(0, AID, [])

  function Peer(up: seq<Msg>, down: seq<Msg>): Conn {
    Conn(false, [], Rogue, up, down, [], 0, false, Regular, false)
  }

  function At(conns: seq<Conn>, comm: Comm): State {
    State(conns, [], map[0 := 0], map[], NO_APP_SELECTED, comm, Idle, [], 0, false)
  }

  /** A first client is accepted on descriptor 0 and asks for the version. */
  lemma Accepted(w: World)
    ensures Reachable(w, At([Peer([], [])], AwaitVersion(0)))
  {
    Start(w);
    var s0 := INITIAL;
    Next(w, s0, Join(false, []));
    var s1 := Do(w, s0, Join(false, []));
    Next(w, s1, Communication(SelectListening));
    var s2 := Do(w, s1, Communication(SelectListening));
    Next(w, s2, Communication(Accept(0)));
    var s3 := Do(w, s2, Communication(Accept(0)));
    assert s3.conns == [Peer([], [])];
    assert s3.open == map[0 := 0];
    assert s3 == At([Peer([], [])], AwaitVersion(0));
  }

  lemma Says(w: World, m: Msg, down: seq<Msg>, comm: Comm)
    requires Reachable(w, At([Peer([], down)], comm))
    ensures Reachable(w, At([Peer([m], down)], comm))
  {
    var s := At([Peer([], down)], comm);
    Next(w, s, Client(0, Babble(m)));
    assert s.conns[0].up + [m] == [m];
    assert Do(w, s, Client(0, Babble(m))).conns == [Peer([m], down)];
  }

  /** The daemon reads its frame. */
  lemma Reads(w: World, m: Msg, down: seq<Msg>, comm: Comm, comm': Comm)
    requires Reachable(w, At([Peer([m], down)], comm))
    requires || (comm == AwaitVersion(0) && m == [GET_API_VERSION] && comm' == SendVersion(0))
             || (comm == AwaitAid(0) && RequestedAid(m) == Some(AID) && comm' == Lookup(0, AID))
    ensures Reachable(w, At([Peer([], down)], comm'))
  {
    var s := At([Peer([m], down)], comm);
    Next(w, s, Communication(Advance));
    assert s.conns[0].up[1..] == [];
    assert Do(w, s, Communication(Advance)).conns == [Peer([], down)];
  }

  /** The daemon writes a frame. */
  lemma Writes(w: World, m: Msg, down: seq<Msg>, comm: Comm, comm': Comm)
    requires Reachable(w, At([Peer([], down)], comm))
    requires || (comm == SendVersion(0) && m == [API_VERSION] && comm' == AwaitAid(0))
             || (comm == Acknowledge(0, AID) && m == [EDNA_OK] && comm' == Insert(0, AID))
    ensures Reachable(w, At([Peer([], down + [m])], comm'))
  {
    var s := At([Peer([], down)], comm);
    Next(w, s, Communication(Advance));
    assert Do(w, s, Communication(Advance)).conns == [Peer([], down + [m])];
  }

  lemma LooksUp(w: World, down: seq<Msg>)
    requires Reachable(w, At([Peer([], down)], Lookup(0, AID)))
    ensures Reachable(w, At([Peer([], down)], Acknowledge(0, AID)))
  {
    Next(w, At([Peer([], down)], Lookup(0, AID)), Communication(Advance));
  }

  lemma VersionSent(w: World)
    ensures Reachable(w, At([Peer([], [[API_VERSION]])], AwaitAid(0)))
  {
    var down: seq<Msg> := [];
    Accepted(w);
    Says(w, [GET_API_VERSION], down, AwaitVersion(0));
    Reads(w, [GET_API_VERSION], down, AwaitVersion(0), SendVersion(0));
    Writes(w, [API_VERSION], down, SendVersion(0), AwaitAid(0));
    assert down + [[API_VERSION]] == [[API_VERSION]];
  }

  lemma Requested(w: World)
    ensures Reachable(w, At([Peer([], [[API_VERSION]])], Acknowledge(0, AID)))
  {
    var down: seq<Msg> := [[API_VERSION]];
    var req: Msg := [REGISTER_AID] + AID;
    RequestedAidOf(AID);
    VersionSent(w);
    Says(w, req, down, AwaitAid(0));
    Reads(w, req, down, AwaitAid(0), Lookup(0, AID));
    LooksUp(w, down);
  }

  /** It registers an AID. */
  lemma Acknowledged(w: World)
    ensures Reachable(w, At([Peer([], [[API_VERSION], [EDNA_OK]])], Insert(0, AID)))
  {
    var down: seq<Msg> := [[API_VERSION]];
    Requested(w);
    Writes(w, [EDNA_OK], down, Acknowledge(0, AID), Insert(0, AID));
    assert down + [[EDNA_OK]] == [[API_VERSION], [EDNA_OK]];
  }

  /** The terminal selects it; before the command is passed on, it crashes and is dropped. */
  lemma SelectedAndGone(w: World)
    ensures exists s, card ::
      && Reachable(w, s) && |s.conns| == 1 && s.backlog == [] && s.open == map[] && s.registry == map[]
      && s.selected == 0 && s.comm == Selecting && s.emu == Wanted(SELECT, card)
  {
    Acknowledged(w);
    var down: seq<Msg> := [[API_VERSION], [EDNA_OK]];
    var s10 := At([Peer([], down)], Insert(0, AID));
    Next(w, s10, Communication(Advance));
    var s11 := Do(w, s10, Communication(Advance));
    assert s11 == At([Peer([], down)], Selecting).(registry := map[AID := 0]);
    ParseInvertsBuild(0, AID, []);
    Next(w, s11, Emulator(Ask(SELECT)));
    var s12 := Do(w, s11, Emulator(Ask(SELECT)));
    assert s12 == s11.(selected := 0, emu := Wanted(SELECT, Abs(s11)));
    Next(w, s12, Client(0, Crash));
    var s13 := Do(w, s12, Client(0, Crash));
    Dropped(w, s13);
  }

  lemma Dropped(w: World, s: State)
    requires Reachable(w, s) && |s.conns| == 1 && s.conns[0].phase == Closed(Left) && s.conns[0].up == []
    requires s.backlog == [] && s.open == map[0 := 0] && s.registry == map[AID := 0]
    requires s.selected == 0 && s.comm == Selecting && s.emu.Wanted? && s.emu.apdu == SELECT
    ensures exists t, card ::
      && Reachable(w, t) && |t.conns| == 1 && t.backlog == [] && t.open == map[] && t.registry == map[]
      && t.selected == 0 && t.comm == Selecting && t.emu == Wanted(SELECT, card)
  {
    assert s.registry[AID] == 0;
    assert 0 in s.registry.Values;
    Next(w, s, Communication(SelectReady({0})));
    var s1 := Do(w, s, Communication(SelectReady({0})));
    Next(w, s1, Communication(Handle(0)));
    var s2 := Do(w, s1, Communication(Handle(0)));
    assert s2 == s.(comm := Dropping(0));
    Next(w, s2, Communication(Advance));
    var s3 := Do(w, s2, Communication(Advance));
    assert s3.registry == map[] && s3.open == map[];
    assert s3.emu == Wanted(SELECT, s.emu.card);
  }

  /** A step passes the command to a client though nothing is registered. */
  ghost predicate Misled(w: World, s: State, t: State) {
    && Reachable(w, s) && Can(w, s, Emulator(Proceed)) && t == Do(w, s, Emulator(Proceed))
    && |s.conns| == |t.conns| == 2 && s.registry == map[] && s.conns[1].lib && s.conns[1].phase == Fresh
    && s.conns[1].down == [] && t.conns[1].down == [[TRANSCEIVE_APDU] + SELECT]
  }

  /** A library client connects, is given the same number, and receives the other's command
      although nothing is registered and it has not sent a byte. */
  lemma CommandGoesAstray(w: World)
    ensures exists s, t :: Misled(w, s, t)
  {
    SelectedAndGone(w);
    var s, card :|
      && Reachable(w, s) && |s.conns| == 1 && s.backlog == [] && s.open == map[] && s.registry == map[]
      && s.selected == 0 && s.comm == Selecting && s.emu == Wanted(SELECT, card);
    Next(w, s, Join(true, [0xbb]));
    var s1 := Do(w, s, Join(true, [0xbb]));
    Next(w, s1, Communication(SelectListening));
    var s2 := Do(w, s1, Communication(SelectListening));
    Next(w, s2, Communication(Accept(0)));
    Astray(w, Do(w, s2, Communication(Accept(0))));
  }

  lemma Astray(w: World, s: State)
    requires Reachable(w, s) && |s.conns| == 2 && s.selected == 0 && s.open == map[0 := 1] && s.registry == map[]
    requires s.emu.Wanted? && s.emu.apdu == SELECT
    requires s.conns[1].lib && s.conns[1].phase == Fresh && s.conns[1].down == []
    ensures exists s, t :: Misled(w, s, t)
  {
    Next(w, s, Emulator(Proceed));
    var s1 := Do(w, s, Emulator(Proceed));
    var s2 := Do(w, s1, Emulator(Proceed));
    assert s1.conns[1].down + [[TRANSCEIVE_APDU] + SELECT] == [[TRANSCEIVE_APDU] + SELECT];
    assert Misled(w, s1, s2);
  }
}

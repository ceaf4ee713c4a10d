/** A power event reaches every application that stays registered, once, while others come and go. */
module PowerPass {
  import opened Bytes
  import opened Protocol
  import opened System
  import opened Frames
  import opened Traffic
  import H = Hex

  /** The registry is walked in a strict total order. */
  ghost predicate IsOrder(less: (seq<byte>, seq<byte>) -> bool) {
    && (forall a :: !less(a, a))
    && (forall a, b, c | less(a, b) && less(b, c) :: less(a, c))
    && (forall a, b | a != b :: less(a, b) || less(b, a))
  }

  /** The order of the source, by the text of the keys, is one. */
  lemma RegistryOrder()
    ensures IsOrder(H.Less)
  {
    forall a
      ensures !H.Less(a, a)
    {
      H.LessTotal(a, a);
    }
    forall a, b, c | H.Less(a, b) && H.Less(b, c)
      ensures H.Less(a, c)
    {
      H.LessTransitive(a, b, c);
    }
    forall a, b | a != b
      ensures H.Less(a, b) || H.Less(b, a)
    {
      H.LessTotal(a, b);
    }
  }

  /** How often the steps from `a` to `k` visit the entry of `aid`. */
  function Visits(steps: seq<Step>, a: nat, k: nat, aid: seq<byte>): nat
    requires a <= k <= |steps|
  {
    if k == a then 0 else Visits(steps, a, k - 1, aid) + if steps[k - 1] == Emulator(Visit(aid)) then 1 else 0
  }

  predicate Passing(emu: Emu) {
    emu.PowerWanted? || emu.Power? || emu.PowerSent?
  }

  /** The entry the pass visited last. */
  function LastOf(emu: Emu): Option<seq<byte>> {
    match emu
    case Power(_, last) => last
    case PowerSent(_, last, _) => last
    case _ => None
  }

  /** The walk has come to `aid`, or past it. */
  predicate Past(less: (seq<byte>, seq<byte>) -> bool, last: Option<seq<byte>>, aid: seq<byte>) {
    last.Some? && (aid == last.value || less(aid, last.value))
  }

  /** What a step does to a pass that goes on. */
  predicate Walks(less: (seq<byte>, seq<byte>) -> bool, s: State, step: Step, t: State) {
    && Passing(s.emu) && Passing(t.emu) && t.emu.kind == s.emu.kind
    && if step.Emulator? && step.eact.Visit? then
         && LastOf(t.emu) == Some(step.eact.aid) && step.eact.aid in s.registry
         && After(less, LastOf(s.emu), step.eact.aid)
         && forall b | b in s.registry && After(less, LastOf(s.emu), b) :: !less(b, step.eact.aid)
       else
         LastOf(t.emu) == LastOf(s.emu)
  }

  lemma StepWalks(w: World, s: State, step: Step)
    requires Can(w, s, step) && Passing(s.emu) && Passing(Do(w, s, step).emu)
    ensures Walks(w.less, s, step, Do(w, s, step))
  {
    match step {
      case Join(_, _) =>
      case Client(_, _) =>
      case Communication(act) => CommUntouched(s, act);
      case Emulator(act) =>
        match act {
          case Proceed => ProceedWalks(w, s);
          case Visit(aid) => WriteUntouched(s, s.registry[aid], [s.emu.kind]);
          case PowerEvent(_) =>
          case Ask(_) =>
          case PassDone =>
        }
    }
  }

  lemma ProceedWalks(w: World, s: State)
    requires EmuCan(s, w.less, Proceed) && Passing(s.emu)
    ensures var t := ProceedDo(s, w.less); t.emu.Power? && t.emu.kind == s.emu.kind && LastOf(t.emu) == LastOf(s.emu)
  {
  }

  /** A pass that begins with step `a` and has not ended before state `k`. */
  ghost predicate InPass(ss: seq<State>, steps: seq<Step>, a: nat, k: nat, kind: byte)
    requires a < k <= |steps| < |ss|
  {
    steps[a] == Emulator(PowerEvent(kind)) && forall j | a < j <= k :: Passing(ss[j].emu)
  }

  ghost predicate Stays(ss: seq<State>, a: nat, k: nat, aid: seq<byte>)
    requires a < k < |ss|
  {
    forall j | a < j <= k :: aid in ss[j].registry
  }

  /** The states and steps of a pass, up to state `k`. */
  ghost predicate PassWalks(less: (seq<byte>, seq<byte>) -> bool, ss: seq<State>, steps: seq<Step>,
                            a: nat, k: nat, kind: byte)
    requires a < k <= |steps| < |ss|
  {
    && ss[a + 1].emu == PowerWanted(kind) && steps[a] == Emulator(PowerEvent(kind))
    && forall j | a < j < k :: Walks(less, ss[j], steps[j], ss[j + 1])
  }

  lemma RunWalks(w: World, ss: seq<State>, steps: seq<Step>, a: nat, k: nat, kind: byte)
    requires IsRun(w, ss, steps) && a < k <= |steps| && InPass(ss, steps, a, k, kind)
    ensures PassWalks(w.less, ss, steps, a, k, kind)
  {
    assert ss[a + 1] == Do(w, ss[a], steps[a]);
    forall j | a < j < k
      ensures Walks(w.less, ss[j], steps[j], ss[j + 1])
    {
      assert ss[j + 1] == Do(w, ss[j], steps[j]) && Passing(ss[j].emu) && Passing(ss[j + 1].emu);
      StepWalks(w, ss[j], steps[j]);
    }
  }

  /** Behind the walk every entry has been visited at most once, and exactly once if it has been
      registered all the time; before it none has. */
  lemma {:induction false} WalkVisits(less: (seq<byte>, seq<byte>) -> bool, ss: seq<State>, steps: seq<Step>,
                                      a: nat, k: nat, kind: byte, aid: seq<byte>)
    requires IsOrder(less) && a < k <= |steps| < |ss| && PassWalks(less, ss, steps, a, k, kind)
    ensures Passing(ss[k].emu) && ss[k].emu.kind == kind
    ensures Visits(steps, a, k, aid) <= if Past(less, LastOf(ss[k].emu), aid) then 1 else 0
    ensures Stays(ss, a, k, aid) && Past(less, LastOf(ss[k].emu), aid) ==> Visits(steps, a, k, aid) == 1
  {
    if k - 1 > a {
      WalkVisits(less, ss, steps, a, k - 1, kind, aid);
      assert Walks(less, ss[k - 1], steps[k - 1], ss[k - 1 + 1]);
      OneVisit(less, ss[k - 1], steps[k - 1], ss[k], aid);
    } else {
      assert Visits(steps, a, a, aid) == 0;
    }
  }

  /** A visit moves the walk past the entry visited, and past no other that is registered. */
  lemma OneVisit(less: (seq<byte>, seq<byte>) -> bool, s: State, step: Step, t: State, aid: seq<byte>)
    requires IsOrder(less) && Walks(less, s, step, t)
    ensures Past(less, LastOf(s.emu), aid) ==> Past(less, LastOf(t.emu), aid) && step != Emulator(Visit(aid))
    ensures !Past(less, LastOf(s.emu), aid) && Past(less, LastOf(t.emu), aid) && aid in s.registry ==>
      step == Emulator(Visit(aid))
    ensures step == Emulator(Visit(aid)) ==> Past(less, LastOf(t.emu), aid)
  {
  }

  /** Over every run: from a power event to the end of its pass, every AID is visited at most
      once, with the kind of that event, and one that is registered all the time exactly once. */
  lemma PassVisits(w: World, ss: seq<State>, steps: seq<Step>, a: nat, k: nat, kind: byte, aid: seq<byte>)
    requires IsRun(w, ss, steps) && IsOrder(w.less) && a < k < |steps| && InPass(ss, steps, a, k, kind)
    requires steps[k] == Emulator(PassDone)
    ensures Visits(steps, a, k, aid) <= 1
    ensures Stays(ss, a, k, aid) ==> Visits(steps, a, k, aid) == 1
  {
    RunWalks(w, ss, steps, a, k, kind);
    WalkVisits(w.less, ss, steps, a, k, kind, aid);
  }

  /** And a visit sends the command of the event to that application, unless it is gone. */
  lemma VisitSends(w: World, ss: seq<State>, steps: seq<Step>, a: nat, k: nat, kind: byte, aid: seq<byte>)
    requires IsRun(w, ss, steps) && IsOrder(w.less) && a < k < |steps| && InPass(ss, steps, a, k, kind)
    requires steps[k] == Emulator(Visit(aid))
    ensures aid in ss[k].registry
    ensures var fd := ss[k].registry[aid];
      Writable(ss[k], fd) ==> Sends(ss[k], ss[k + 1], ss[k].open[fd], [[kind]])
  {
    RunWalks(w, ss, steps, a, k, kind);
    WalkVisits(w.less, ss, steps, a, k, kind, aid);
    var fd := ss[k].registry[aid];
    if Writable(ss[k], fd) {
      PushSends(ss[k], fd, [kind], ss[k].open[fd]);
    }
  }
}

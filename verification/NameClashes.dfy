/**
 Policies called like modes. Idle is reached from a policy without lying down, in some run,
 exactly if a policy is called "idle", "joint_pd" or "transform_up".
 */
module NameClashes {
  import opened RobotControl
  import opened SimpleModes
  import opened Fsm
  import opened FsmRuns
  import opened ModeRuns
  import TransformUp

  /** A policy runs at i and idle at j, with no lie-down in between. */
  ghost predicate Escape(ms: seq<Machine>, i: nat, j: nat) {
    i < j < |ms| && ms[i].current.Rl? && ms[j].current == Passive && forall u :: i < u < j ==> ms[u].current != Down
  }

  ghost predicate Escapes(p: Params, m: Machine, ms: seq<Machine>, ins: seq<Input>) {
    Segment(p, ms, ins) && ms[0] == m && exists i, j :: Escape(ms, i, j)
  }

  // ----- Harmless names leave no way out -----

  /** The machine runs a policy, and has decided for nothing but policies and lying down. */
  ghost predicate InPolicy(m: Machine) {
    m.current.Rl? && (m.mode == Change ==> m.next.Rl? || m.next == Down)
  }

  lemma PolicyTick(p: Params, m: Machine, i: Input)
    requires MachineFits(p, m) && InputFits(p, i) && HarmlessNames(p)
    ensures m.mode == Change && m.next.Rl? ==> InPolicy(Tick(p, m, i))
    ensures InPolicy(m) ==> InPolicy(Tick(p, m, i)) || Tick(p, m, i).current == Down
  {
    TickKeepsCurrent(p, m, i);
    if m.mode == Normal && m.current.Rl? {
      HarmlessLeadsSafely(p, m.current.k, i.command);
    }
  }

  /** From its entry on, a policy is left only for policies and lying down. */
  lemma {:induction false} AlwaysInPolicy(p: Params, ms: seq<Machine>, ins: seq<Input>, t: nat)
    requires Segment(p, ms, ins) && Started(p, ms[0]) && HarmlessNames(p) && t < |ms| && ms[t].current.Rl?
    ensures InPolicy(ms[t])
  {
    hide Tick, MachineFits, InputFits;
    if t > 0 {
      var m := ms[t - 1];
      assert ms[t] == Tick(p, m, ins[t - 1]);
      TickKeepsCurrent(p, m, ins[t - 1]);
      PolicyTick(p, m, ins[t - 1]);
      if m.mode == Normal {
        AlwaysInPolicy(p, ms, ins, t - 1);
      }
    }
  }

  lemma {:induction false} StaysInPolicy(p: Params, ms: seq<Machine>, ins: seq<Input>, i: nat, t: nat)
    requires Segment(p, ms, ins) && Started(p, ms[0]) && HarmlessNames(p)
    requires i <= t < |ms| && ms[i].current.Rl? && forall u :: i < u < t ==> ms[u].current != Down
    ensures InPolicy(ms[t]) || ms[t].current == Down
  {
    hide Tick, MachineFits, InputFits, InPolicy;
    if t == i {
      AlwaysInPolicy(p, ms, ins, i);
    } else {
      StaysInPolicy(p, ms, ins, i, t - 1);
      assert ms[t] == Tick(p, ms[t - 1], ins[t - 1]);
      PolicyTick(p, ms[t - 1], ins[t - 1]);
      PolicyIsNotDown(ms[i]);
    }
  }

  lemma PolicyIsNotDown(m: Machine)
    ensures m.current.Rl? ==> m.current != Down && m.current != Passive
    ensures InPolicy(m) ==> m.current.Rl?
  {
  }

  // ----- Runs that escape -----

  function With(i: Input, command: Command): Input {
    i.(command := command)
  }

  /** A mode without counters asks for what its name table says. */
  lemma AskTick(p: Params, m: Machine, i: Input)
    requires MachineFits(p, m) && InputFits(p, i) && m.mode == Normal
    requires m.current == Passive || m.current == JointPD || m.current.Rl?
    ensures var (r, name) := (Tick(p, m, i), Requested(p, m, i.command));
      r.current == m.current && r.up == m.up && r.down == m.down
      && (name != NameOf(p, m.current) ==> r.mode == Change && r.next == NextState(p, name))
  {
    hide IdleCmd, HoldCmd, StateMap;
  }

  lemma TakeTick(p: Params, m: Machine, i: Input)
    requires MachineFits(p, m) && InputFits(p, i) && m.mode == Change && m.current != Down
    requires m.next == Passive || m.next == JointPD || m.next.Rl?
    ensures var r := Tick(p, m, i);
      r.current == m.next && r.mode == Normal && r.up == m.up && r.down == m.down
  {
    hide IdleCmd, HoldCmd, StateMap;
  }

  /** One run after another. */
  lemma Joined(p: Params, ms: seq<Machine>, ins: seq<Input>, ns: seq<Machine>, js: seq<Input>)
    requires Segment(p, ms, ins) && Segment(p, ns, js) && ns[0] == ms[|ins|]
    ensures Segment(p, ms + ns[1..], ins + js)
    ensures forall t :: 0 <= t < |ns| ==> (ms + ns[1..])[|ins| + t] == ns[t]
  {
    hide Tick, MachineFits, InputFits;
    var all := ms + ns[1..];
    assert forall t :: 0 <= t < |ms| ==> all[t] == ms[t];
    assert forall t :: 0 <= t < |ns| ==> all[|ins| + t] == ns[t];
    forall t | 0 <= t < |ins + js|
      ensures all[t + 1] == Tick(p, all[t], (ins + js)[t])
    {
      if t >= |ins| {
        assert ns[t - |ins| + 1] == Tick(p, ns[t - |ins|], js[t - |ins|]);
      }
    }
    forall t | 0 <= t < |all|
      ensures MachineFits(p, all[t])
    {
      assert t >= |ms| ==> all[t] == ns[t - |ins|];
    }
  }

  lemma RunnableIsPlain(p: Params, j: nat)
    requires Runnable(p, j)
    ensures p.policies[j] !in BUILT_IN && NameOf(p, Rl(j)) == p.policies[j]
  {
    MapMeans(p.policies, |p.policies|, p.policies[j]);
  }

  lemma ModeNames(p: Params)
    ensures NextState(p, "idle") == Passive && NextState(p, "joint_pd") == JointPD && NextState(p, "transform_up") == Up
  {
    MapMeans(p.policies, |p.policies|, "idle");
    MapMeans(p.policies, |p.policies|, "joint_pd");
    MapMeans(p.policies, |p.policies|, "transform_up");
  }

  function ToPolicy(i: Input, j: nat): seq<Input> {
    [With(i, DesiredJointPD), i, With(i, DesiredRl(Some(j))), i]
  }

  /** Four ticks from idle to any policy that can run, by way of holding. */
  lemma ReachesPolicy(p: Params, m: Machine, i: Input, j: nat) returns (ms: seq<Machine>)
    requires Started(p, m) && InputFits(p, i) && Runnable(p, j)
    ensures Segment(p, ms, ToPolicy(i, j)) && ms[0] == m
    ensures ms[4].current == Rl(j) && ms[4].mode == Normal && ms[4].up == m.up
  {
    RunnableIsPlain(p, j);
    ModeNames(p);
    ms := Trace(p, m, ToPolicy(i, j));
    hide Tick, StateMap;
    AskTick(p, ms[0], With(i, DesiredJointPD));
    TakeTick(p, ms[1], i);
    AskTick(p, ms[2], With(i, DesiredRl(Some(j))));
    TakeTick(p, ms[3], i);
  }

  /** Two ticks from holding to idle. */
  lemma HoldingToIdle(p: Params, m: Machine, i: Input) returns (ms: seq<Machine>)
    requires MachineFits(p, m) && InputFits(p, i) && m.current == JointPD && m.mode == Normal
    ensures Segment(p, ms, [With(i, DesiredIdle), i]) && ms[0] == m
    ensures ms[1].current == JointPD && ms[2].current == Passive
  {
    ModeNames(p);
    ms := Trace(p, m, [With(i, DesiredIdle), i]);
    hide Tick, StateMap;
    AskTick(p, m, With(i, DesiredIdle));
    TakeTick(p, ms[1], i);
  }

  /** A policy asked for the policy called `name` decides for that mode. */
  lemma AsksForMode(p: Params, m: Machine, i: Input, j: nat, k: nat)
    requires MachineFits(p, m) && InputFits(p, i) && Runnable(p, j) && m.current == Rl(j) && m.mode == Normal
    requires k < |p.policies| && p.policies[k] in BUILT_IN
    ensures var r := Tick(p, m, With(i, DesiredRl(Some(k))));
      r.current == Rl(j) && r.mode == Change && r.next == NextState(p, p.policies[k]) && r.up == m.up
  {
    RunnableIsPlain(p, j);
    hide Tick, StateMap, NextState;
    AskTick(p, m, With(i, DesiredRl(Some(k))));
  }

  /** A stand-up decides for holding when it is left on that command. */
  lemma StandUpAsked(p: Params, m: Machine, i: Input)
    requires MachineFits(p, m) && InputFits(p, i) && m.current == Up && m.mode == Normal && i.command == DesiredJointPD
    ensures Tick(p, m, i).mode == Change ==> Tick(p, m, i).next == JointPD
  {
    ModeNames(p);
    hide TransformUp.Advanced, TransformUp.Commanded, TransformUp.GateOpen, StateMap, NextState;
  }

  function Asking(i: Input, n: nat): seq<Input> {
    seq(n, t => With(i, DesiredJointPD))
  }

  /** Asked until it is due, a stand-up hands over to holding. */
  lemma StandUpHandsOver(p: Params, m: Machine, i: Input, s: TransformUp.State, n: nat) returns (ms: seq<Machine>)
    requires MachineFits(p, m) && InputFits(p, i) && m.mode == Change && m.next == Up
    requires s == Begun(p, m, With(i, DesiredJointPD)) && n >= 2 && TransformUp.Due(n, s.foldRamp, s.standRamp)
    requires forall r :: 2 <= r < n ==> !TransformUp.Due(r, s.foldRamp, s.standRamp)
    ensures Segment(p, ms, Asking(i, n)) && ms[0] == m
    ensures forall t :: 1 <= t <= n ==> ms[t].current == Up
    ensures ms[n].mode == Change && ms[n].next == JointPD
  {
    var ins := Asking(i, n);
    ms := Trace(p, m, ins);
    hide Tick, MachineFits, InputFits, Begun, TransformUp.Due;
    KeepsStanding(p, ms, ins, s, n - 1);
    LeavesExactlyWhen(p, ms, ins, s);
    assert ms[n] == Tick(p, ms[n - 1], ins[n - 1]);
    TickKeepsCurrent(p, ms[n - 1], ins[n - 1]);
    StandUpAsked(p, ms[n - 1], ins[n - 1]);
  }

  /** A run after which a policy is current, with nothing in between that lies down, can only lengthen an escape. */
  ghost predicate UpAndRunning(ms: seq<Machine>, i: nat) {
    i < |ms| && ms[i].current.Rl? && forall u :: i < u < |ms| ==> ms[u].current != Down
  }

  lemma EscapeFound(p: Params, m: Machine, ms: seq<Machine>, ins: seq<Input>, i: nat)
    requires Segment(p, ms, ins) && ms[0] == m && UpAndRunning(ms, i) && i < |ins| && ms[|ins|].current == Passive
    ensures Escapes(p, m, ms, ins)
  {
    assert Escape(ms, i, |ins|);
  }

  lemma Extended(
    p: Params, ms: seq<Machine>, ins: seq<Input>, ns: seq<Machine>, js: seq<Input>, i: nat) returns (all: seq<Machine>)
    requires Segment(p, ms, ins) && Segment(p, ns, js) && ns[0] == ms[|ins|] && UpAndRunning(ms, i)
    requires forall t :: 0 < t < |ns| ==> ns[t].current != Down
    ensures Segment(p, all, ins + js) && UpAndRunning(all, i) && all[0] == ms[0] && all[|ins + js|] == ns[|js|]
  {
    all := ms + ns[1..];
    hide Segment, MachineFits, InputFits;
    SegmentLength(p, ms, ins);
    SegmentLength(p, ns, js);
    Joined(p, ms, ins, ns, js);
    forall u | i < u < |all|
      ensures all[u].current != Down
    {
      assert u >= |ms| ==> all[u] == ns[u - |ins|];
    }
    assert all[|ins| + |js|] == ns[|js|];
  }

  lemma SegmentLength(p: Params, ms: seq<Machine>, ins: seq<Input>)
    requires Segment(p, ms, ins)
    ensures |ms| == |ins| + 1
  {
  }

  /** One tick as a run. */
  lemma OneTick(p: Params, m: Machine, i: Input)
    requires MachineFits(p, m) && InputFits(p, i)
    ensures Segment(p, [m, Tick(p, m, i)], [i])
  {
    hide Tick, MachineFits, InputFits;
    TickFits(p, m, i);
  }

  lemma TickFits(p: Params, m: Machine, i: Input)
    requires MachineFits(p, m) && InputFits(p, i)
    ensures MachineFits(p, Tick(p, m, i))
  {
  }

  /** To policy j, and from there to the mode that policy k is called like. */
  lemma ReachesMode(p: Params, m: Machine, i: Input, j: nat, k: nat) returns (ms: seq<Machine>, ins: seq<Input>)
    requires Started(p, m) && InputFits(p, i) && Runnable(p, j)
    requires k < |p.policies| && p.policies[k] in BUILT_IN
    ensures Segment(p, ms, ins) && ms[0] == m && UpAndRunning(ms, |ins|)
    ensures ms[|ins|].mode == Change && ms[|ins|].next == NextState(p, p.policies[k]) && ms[|ins|].up == m.up
  {
    ms := ReachesPolicy(p, m, i, j);
    ins := ToPolicy(i, j);
    var ask := With(i, DesiredRl(Some(k)));
    hide Tick, NextState, Runnable, StateMap;
    assert MachineFits(p, ms[4]) && InputFits(p, ask);
    var last := Tick(p, ms[4], ask);
    AsksForMode(p, ms[4], i, j, k);
    OneTick(p, ms[4], ask);
    Joined(p, ms, ins, [ms[4], last], [ask]);
    ms, ins := ms + [last], ins + [ask];
  }

  /** From a decision for holding, two modes on, to idle. */
  lemma HoldsThenIdles(p: Params, ms: seq<Machine>, ins: seq<Input>, i: Input, at: nat)
    returns (all: seq<Machine>, js: seq<Input>)
    requires Segment(p, ms, ins) && InputFits(p, i) && UpAndRunning(ms, at) && at <= |ins|
    requires ms[|ins|].mode == Change && ms[|ins|].next == JointPD
    ensures Segment(p, all, js) && all[0] == ms[0] && UpAndRunning(all, at) && at < |js| && all[|js|].current == Passive
  {
    var m := ms[|ins|];
    assert MachineFits(p, m);
    hide Tick, MachineFits, InputFits, Segment, With;
    SegmentLength(p, ms, ins);
    assert m.current != Down;
    TakeTick(p, m, i);
    OneTick(p, m, i);
    var held := Tick(p, m, i);
    TickFits(p, m, i);
    all := Extended(p, ms, ins, [m, held], [i], at);
    var ns := HoldingToIdle(p, held, i);
    SegmentLength(p, ns, [With(i, DesiredIdle), i]);
    all := Extended(p, all, ins + [i], ns, [With(i, DesiredIdle), i], at);
    js := ins + [i] + [With(i, DesiredIdle), i];
  }

  lemma IdleEscapes(p: Params, m: Machine, i: Input, j: nat, k: nat) returns (ms: seq<Machine>, ins: seq<Input>)
    requires Started(p, m) && InputFits(p, i) && Runnable(p, j) && k < |p.policies| && p.policies[k] == "idle"
    ensures Escapes(p, m, ms, ins)
  {
    ModeNames(p);
    hide Tick, NextState, Runnable, StateMap, MachineFits, InputFits;
    ms, ins := ReachesMode(p, m, i, j, k);
    var (at, last) := (|ins|, ms[|ins|]);
    TakeTick(p, last, i);
    OneTick(p, last, i);
    ms := Extended(p, ms, ins, [last, Tick(p, last, i)], [i], at);
    ins := ins + [i];
    EscapeFound(p, m, ms, ins, at);
  }

  lemma HoldingEscapes(p: Params, m: Machine, i: Input, j: nat, k: nat) returns (ms: seq<Machine>, ins: seq<Input>)
    requires Started(p, m) && InputFits(p, i) && Runnable(p, j) && k < |p.policies| && p.policies[k] == "joint_pd"
    ensures Escapes(p, m, ms, ins)
  {
    ModeNames(p);
    hide Tick, NextState, Runnable, StateMap, MachineFits, InputFits;
    ms, ins := ReachesMode(p, m, i, j, k);
    var at := |ins|;
    ms, ins := HoldsThenIdles(p, ms, ins, i, at);
    EscapeFound(p, m, ms, ins, at);
  }

  lemma StandingEscapes(p: Params, m: Machine, i: Input, j: nat, k: nat) returns (ms: seq<Machine>, ins: seq<Input>)
    requires Started(p, m) && InputFits(p, i) && Runnable(p, j) && k < |p.policies| && p.policies[k] == "transform_up"
    ensures Escapes(p, m, ms, ins)
  {
    ModeNames(p);
    hide Tick, NextState, Runnable, StateMap, MachineFits, InputFits, Begun, Segment, UpAndRunning;
    ms, ins := ReachesMode(p, m, i, j, k);
    SegmentLength(p, ms, ins);
    var at := |ins|;
    ms, ins := StandsThenHolds(p, ms, ins, m, i, at);
    ms, ins := HoldsThenIdles(p, ms, ins, i, at);
    SegmentLength(p, ms, ins);
    EscapeFound(p, m, ms, ins, at);
  }

  /** From a decision for standing up, through all of it, to a decision for holding. */
  lemma StandsThenHolds(p: Params, ms: seq<Machine>, ins: seq<Input>, m: Machine, i: Input, at: nat)
    returns (all: seq<Machine>, js: seq<Input>)
    requires Segment(p, ms, ins) && InputFits(p, i) && MachineFits(p, m) && UpAndRunning(ms, at) && at <= |ins|
    requires ms[|ins|].mode == Change && ms[|ins|].next == Up && ms[|ins|].up == m.up
    ensures Segment(p, all, js) && all[0] == ms[0] && UpAndRunning(all, at) && at <= |js|
    ensures all[|js|].mode == Change && all[|js|].next == JointPD
  {
    var last := ms[|ins|];
    var s := Begun(p, m, With(i, DesiredJointPD));
    assert MachineFits(p, last);
    SameBeginning(p, m, last, With(i, DesiredJointPD));
    hide Tick, Begun, MachineFits, InputFits, UpAndRunning, With, StateMap;
    var n := TransformUp.OpensSometime(s.foldRamp, s.standRamp);
    var ns := StandUpHandsOver(p, last, i, s, n);
    all := Extended(p, ms, ins, ns, Asking(i, n), at);
    js := ins + Asking(i, n);
  }

  lemma SameBeginning(p: Params, m: Machine, n: Machine, i: Input)
    requires MachineFits(p, m) && MachineFits(p, n) && InputFits(p, i) && m.up == n.up
    ensures Begun(p, m, i) == Begun(p, n, i)
  {
  }

  /**
   As soon as some policy can run: idle is reached from a policy without lying down, in some run,
   exactly if a policy is called "idle", "joint_pd" or "transform_up".
   */
  lemma EscapeIff(p: Params, m: Machine, i: Input, j: nat)
    requires Started(p, m) && InputFits(p, i) && Runnable(p, j)
    ensures (exists ms, ins :: Escapes(p, m, ms, ins)) <==> !HarmlessNames(p)
  {
    hide Tick, NextState, Runnable, StateMap, MachineFits, InputFits, Begun;
    if !HarmlessNames(p) {
      var k :| 0 <= k < |p.policies| && p.policies[k] in {"idle", "joint_pd", "transform_up"};
      var ms, ins;
      if p.policies[k] == "idle" {
        ms, ins := IdleEscapes(p, m, i, j, k);
      } else if p.policies[k] == "joint_pd" {
        ms, ins := HoldingEscapes(p, m, i, j, k);
      } else {
        ms, ins := StandingEscapes(p, m, i, j, k);
      }
      assert Escapes(p, m, ms, ins);
    } else {
      forall ms, ins | Segment(p, ms, ins) && ms[0] == m
        ensures !Escapes(p, m, ms, ins)
      {
        NoEscape(p, m, ms, ins);
      }
    }
  }

  lemma NoEscape(p: Params, m: Machine, ms: seq<Machine>, ins: seq<Input>)
    requires Started(p, m) && HarmlessNames(p)
    ensures !Escapes(p, m, ms, ins)
  {
    hide Tick, MachineFits, InputFits, InPolicy;
    if Escapes(p, m, ms, ins) {
      var i: nat, j: nat :| Escape(ms, i, j);
      StaysInPolicy(p, ms, ins, i, j);
      PolicyIsNotDown(ms[j]);
    }
  }
}

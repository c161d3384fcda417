/**
 Requests honoured: on every tick of every run, exactly which mode the operator's command leads to, and
 that it is run on the tick after next.
 */
module Requests {
  import opened RobotControl
  import opened SimpleModes
  import opened Fsm
  import opened FsmRuns
  import opened ModeRuns
  import TransformUp

  /** Tick t decides for mode k, and the tick after it enters and runs k. */
  ghost predicate Goes(ms: seq<Machine>, t: nat, k: Kind)
    requires t + 1 < |ms|
  {
    ms[t + 1].mode == Change && ms[t + 1].next == k
    && (t + 2 < |ms| ==> ms[t + 2].current == k && ms[t + 2].mode == Normal)
  }

  /** Tick t decides nothing, and the tick after it runs the same mode again. */
  ghost predicate Stays(ms: seq<Machine>, t: nat)
    requires t + 1 < |ms|
  {
    ms[t + 1].mode == Normal && ms[t + 1].current == ms[t].current
    && (t + 2 < |ms| ==> ms[t + 2].current == ms[t].current)
  }

  /** What a name means: one of the four modes, or else the first policy so called. */
  ghost predicate Means(p: Params, name: string, k: Kind) {
    match k
    case Passive => name == "idle"
    case Up => name == "transform_up"
    case JointPD => name == "joint_pd"
    case Down => name == "transform_down"
    case Rl(j) =>
      name !in {"idle", "transform_up", "joint_pd", "transform_down"} && j < |p.policies| && p.policies[j] == name
      && forall i :: 0 <= i < j ==> p.policies[i] != name
  }

  /** Exactly one mode or policy is meant by the name of a mode or of a policy, and that is where it leads. */
  lemma NameMeans(p: Params, name: string, k: Kind)
    requires name in BUILT_IN || exists j :: 0 <= j < |p.policies| && p.policies[j] == name
    ensures Means(p, name, k) <==> NextState(p, name) == k
  {
    MapMeans(p.policies, |p.policies|, name);
  }

  // ----- A running policy was found under its own name -----

  ghost predicate Named(p: Params, k: Kind) {
    k.Rl? ==> k.k < |p.policies| && Means(p, p.policies[k.k], k)
  }

  lemma {:induction false} RunsUnderOwnName(p: Params, ms: seq<Machine>, ins: seq<Input>, t: nat)
    requires Segment(p, ms, ins) && Started(p, ms[0]) && t < |ms|
    ensures Named(p, ms[t].current) && (ms[t].mode == Change ==> Named(p, ms[t].next))
  {
    if t > 0 {
      RunsUnderOwnName(p, ms, ins, t - 1);
      assert ms[t] == Tick(p, ms[t - 1], ins[t - 1]);
      hide Named, MachineFits, InputFits;
      TickKeepsNames(p, ms[t - 1], ins[t - 1]);
    }
  }

  lemma TickKeepsNames(p: Params, m: Machine, i: Input)
    requires MachineFits(p, m) && InputFits(p, i)
    requires Named(p, m.current) && (m.mode == Change ==> Named(p, m.next))
    ensures Named(p, Tick(p, m, i).current) && (Tick(p, m, i).mode == Change ==> Named(p, Tick(p, m, i).next))
  {
    TickKeepsCurrent(p, m, i);
    if m.mode == Normal && Tick(p, m, i).mode == Change {
      TickDecides(p, m, i);
      var name := Requested(p, RunCurrent(p, m, i), i.command);
      hide Tick, RunCurrent, Requested, NextState;
      FoundIsNamed(p, name);
    }
  }

  lemma FoundIsNamed(p: Params, name: string)
    ensures Named(p, NextState(p, name))
  {
    MapMeans(p.policies, |p.policies|, name);
  }

  lemma TickDecides(p: Params, m: Machine, i: Input)
    requires MachineFits(p, m) && InputFits(p, i) && m.mode == Normal
    ensures var (r, ran) := (Tick(p, m, i), RunCurrent(p, m, i));
      var name := Requested(p, ran, i.command);
      r.current == ran.current == m.current
      && if name != NameOf(p, m.current) then r.mode == Change && r.next == NextState(p, name) else r.mode == Normal
  {
    hide TransformUp.Advanced, TransformUp.Commanded, StateMap, NextState, Requested, NameOf;
  }

  // ----- What each tick leads to -----

  /** A tick whose mode asks for another name goes to what that name means; one that does not stays. */
  lemma TickFollows(p: Params, ms: seq<Machine>, ins: seq<Input>, t: nat)
    requires Segment(p, ms, ins) && t < |ins| && ms[t].mode == Normal
    ensures var name := Requested(p, RunCurrent(p, ms[t], ins[t]), ins[t].command);
      if name == NameOf(p, ms[t].current) then Stays(ms, t) else Goes(ms, t, NextState(p, name))
  {
    assert ms[t + 1] == Tick(p, ms[t], ins[t]);
    TickDecides(p, ms[t], ins[t]);
    if t + 1 < |ins| {
      assert ms[t + 2] == Tick(p, ms[t + 1], ins[t + 1]);
      TickKeepsCurrent(p, ms[t + 1], ins[t + 1]);
    }
    hide Tick, NextState, Requested, NameOf, MachineFits, InputFits;
  }

  /** The command names a policy: the number is in range. */
  predicate Numbers(p: Params, command: Command) {
    command.DesiredRl? && command.number.Some? && 0 <= command.number.value < |p.policies|
  }

  /**
   Policy j runs. Asking to lie down is honoured on every tick, whatever policies are called. Asking for
   policy k leads to what its name means, so to policy k itself exactly if no mode and no earlier policy has
   the name, unless k is called like j. Nothing else has any effect.
   */
  lemma PolicyRequests(p: Params, ms: seq<Machine>, ins: seq<Input>, t: nat)
    requires Segment(p, ms, ins) && Started(p, ms[0]) && t < |ins| && ms[t].mode == Normal && ms[t].current.Rl?
    ensures ms[t].current.k < |p.policies|
    ensures var (command, own) := (ins[t].command, p.policies[ms[t].current.k]);
      if command == DesiredDown then Goes(ms, t, Down)
      else if Numbers(p, command) && p.policies[command.number.value] != own then
        Means(p, p.policies[command.number.value], ms[t + 1].next) && Goes(ms, t, ms[t + 1].next)
      else Stays(ms, t)
    ensures forall k: nat {:trigger Rl(k)} ::
      (ins[t].command == DesiredRl(Some(k)) && k < |p.policies| && Means(p, p.policies[k], Rl(k))
       && Rl(k) != ms[t].current) ==> Goes(ms, t, Rl(k))
  {
    var command := ins[t].command;
    RunsUnderOwnName(p, ms, ins, t);
    assert NameOf(p, ms[t].current) == p.policies[ms[t].current.k];
    PolicyAsks(p, RunCurrent(p, ms[t], ins[t]), ms[t].current.k, command);
    NameMeans(p, "transform_down", Down);
    if Numbers(p, command) {
      NameMeans(p, p.policies[command.number.value], NextState(p, p.policies[command.number.value]));
    }
    RunKeepsCurrent(p, ms[t], ins[t]);
    TickFollows(p, ms, ins, t);
    hide Segment, Started, Means, Requested, NextState, NameOf, RunCurrent, Stays;
  }

  lemma RunKeepsCurrent(p: Params, m: Machine, i: Input)
    requires MachineFits(p, m)
    ensures RunCurrent(p, m, i).current == m.current
  {
  }

  lemma PolicyAsks(p: Params, m: Machine, j: nat, command: Command)
    requires m.current == Rl(j) && j < |p.policies|
    ensures Requested(p, m, command) ==
            if command == DesiredDown then "transform_down"
            else if Numbers(p, command) then p.policies[command.number.value] else p.policies[j]
  {
  }

  /** Idle runs: asking to stand up or to hold is honoured, anything else has no effect. */
  lemma IdleRequests(p: Params, ms: seq<Machine>, ins: seq<Input>, t: nat)
    requires Segment(p, ms, ins) && t < |ins| && ms[t].mode == Normal && ms[t].current == Passive
    ensures if ins[t].command == DesiredUp then Goes(ms, t, Up)
            else if ins[t].command == DesiredJointPD then Goes(ms, t, JointPD)
            else Stays(ms, t)
  {
    NameMeans(p, "transform_up", Up);
    NameMeans(p, "joint_pd", JointPD);
    RunKeepsCurrent(p, ms[t], ins[t]);
    TickFollows(p, ms, ins, t);
    hide Segment, NextState, RunCurrent, Stays;
  }

  /** Holding runs: asking for idle, for lying down or for a policy is honoured, anything else has no effect. */
  lemma HoldRequests(p: Params, ms: seq<Machine>, ins: seq<Input>, t: nat)
    requires Segment(p, ms, ins) && t < |ins| && ms[t].mode == Normal && ms[t].current == JointPD
    ensures var command := ins[t].command;
      if command == DesiredIdle then Goes(ms, t, Passive)
      else if command == DesiredDown then Goes(ms, t, Down)
      else if Numbers(p, command) && p.policies[command.number.value] != "joint_pd" then
        Means(p, p.policies[command.number.value], ms[t + 1].next) && Goes(ms, t, ms[t + 1].next)
      else Stays(ms, t)
  {
    var command := ins[t].command;
    NameMeans(p, "idle", Passive);
    NameMeans(p, "transform_down", Down);
    if Numbers(p, command) {
      NameMeans(p, p.policies[command.number.value], NextState(p, p.policies[command.number.value]));
    }
    RunKeepsCurrent(p, ms[t], ins[t]);
    TickFollows(p, ms, ins, t);
    hide Segment, Means, NextState, RunCurrent, Stays;
  }

  /**
   A stand-up on its run |ins|: once due, asking to hold, to lie down or for a policy is honoured, and anything
   else has no effect; while it is not due, nothing has.
   */
  lemma StandUpRequests(p: Params, ms: seq<Machine>, ins: seq<Input>, s: TransformUp.State)
    requires StandUpStretch(p, ms, ins) && 2 <= |ins| && s == Begun(p, ms[0], ins[0])
    ensures var (t, command) := (|ins| - 1, ins[|ins| - 1].command);
      if !TransformUp.Due(|ins|, s.foldRamp, s.standRamp) then Stays(ms, t)
      else if command == DesiredJointPD then Goes(ms, t, JointPD)
      else if command == DesiredDown then Goes(ms, t, Down)
      else if Numbers(p, command) && p.policies[command.number.value] != "transform_up" then
        Means(p, p.policies[command.number.value], ms[t + 1].next) && Goes(ms, t, ms[t + 1].next)
      else Stays(ms, t)
  {
    var (t, command) := (|ins| - 1, ins[|ins| - 1].command);
    NameMeans(p, "joint_pd", JointPD);
    NameMeans(p, "transform_down", Down);
    if Numbers(p, command) {
      NameMeans(p, p.policies[command.number.value], NextState(p, p.policies[command.number.value]));
    }
    StandUpAsks(p, ms, ins, s);
    StandUpIs(p, ms, ins, t);
    TickFollows(p, ms, ins, t);
    hide StandUpStretch, Begun, Segment, Means, NextState, RunCurrent, Requested, Stays, TransformUp.Due;
  }

  lemma StandUpAsks(p: Params, ms: seq<Machine>, ins: seq<Input>, s: TransformUp.State)
    requires StandUpStretch(p, ms, ins) && 2 <= |ins| && s == Begun(p, ms[0], ins[0])
    ensures var command := ins[|ins| - 1].command;
      Requested(p, RunCurrent(p, ms[|ins| - 1], ins[|ins| - 1]), command) ==
      if !TransformUp.Due(|ins|, s.foldRamp, s.standRamp) then "transform_up"
      else if command == DesiredJointPD then "joint_pd"
      else if command == DesiredDown then "transform_down"
      else if Numbers(p, command) then p.policies[command.number.value]
      else "transform_up"
  {
    var (n, command) := (|ins|, ins[|ins| - 1].command);
    StandUpIs(p, ms, ins, n - 1);
    assert ms[n] == Tick(p, ms[n - 1], ins[n - 1]);
    TickRuns(p, ms[n - 1], ins[n - 1]);
    GateInRun(p, ms, ins, s);
    var ran := RunCurrent(p, ms[n - 1], ins[n - 1]);
    assert ran.current == Up && ran.up == ms[n].up;
    UpAsks(p, ran, command);
    hide *;
  }

  lemma TickRuns(p: Params, m: Machine, i: Input)
    requires MachineFits(p, m) && InputFits(p, i) && m.mode == Normal
    ensures RunCurrent(p, m, i).current == m.current && RunCurrent(p, m, i).up == Tick(p, m, i).up
  {
    hide TransformUp.Advanced, TransformUp.Commanded, StateMap, NextState, Requested, NameOf;
  }

  lemma UpAsks(p: Params, m: Machine, command: Command)
    requires m.current == Up
    ensures Requested(p, m, command) ==
      if !TransformUp.GateOpen(m.up.stateIter, m.up.foldRamp, m.up.standRamp) then "transform_up"
      else if command == DesiredJointPD then "joint_pd"
      else if command == DesiredDown then "transform_down"
      else if Numbers(p, command) then p.policies[command.number.value]
      else "transform_up"
  {
    hide TransformUp.GateOpen;
  }
}

/** Stretches of one mode inside a run: how long lying down and standing up take, and what may follow a policy. */
module ModeRuns {
  import opened Arithmetic
  import Orientation
  import opened RobotControl
  import opened SimpleModes
  import opened Fsm
  import opened FsmRuns
  import TransformUp
  import TransformDown
  import StandUpRuns
  import Turning
  import JointRamp

  // ----- Lying down -----

  ghost predicate RampFits(m: Machine) {
    0 <= m.down.foldRamp < I31 - TransformDown.HOLD
  }

  function LastRun(m: Machine): int {
    m.down.foldRamp + TransformDown.HOLD + 1
  }

  /** How many runs a lie-down still has before it. */
  function RunsLeft(m: Machine): int {
    LastRun(m) - m.down.stateIter
  }

  /** Lying down, with the counter at the runs made so far; done exactly after the last one. */
  ghost predicate LyingDown(m: Machine) {
    m.current == Down && RampFits(m) && 1 <= m.down.stateIter <= LastRun(m)
    && (m.down.finished <==> RunsLeft(m) == 0)
    && (m.mode == Change <==> RunsLeft(m) == 0) && (m.mode == Change ==> m.next == Passive)
  }

  /** Nothing the operator asks for changes it: one run fewer each tick, then idle. */
  lemma LieDownTick(p: Params, m: Machine, i: Input)
    requires MachineFits(p, m) && InputFits(p, i) && LyingDown(m)
    ensures var r := Tick(p, m, i);
      if RunsLeft(m) > 0
      then LyingDown(r) && RunsLeft(r) == RunsLeft(m) - 1 && r.down.foldRamp == m.down.foldRamp
           && r.down.stateIter == m.down.stateIter + 1
      else r.current == Passive && r.mode == Normal
  {
    hide TransformDown.Commanded, StateMap;
    if RunsLeft(m) > 0 {
      ToIntExact(m.down.stateIter);
      MapMeans(p.policies, |p.policies|, "idle");
    }
  }

  lemma LieDownEntry(p: Params, m: Machine, i: Input)
    requires MachineFits(p, m) && InputFits(p, i) && m.mode == Change && m.next == Down
    requires RampFits(Tick(p, m, i))
    ensures LyingDown(Tick(p, m, i)) && Tick(p, m, i).down.stateIter == 1
  {
    hide TransformDown.Commanded, StateMap, ScaledTicks, Ticks;
    ToIntExact(0);
  }

  /** From its entry a lie-down runs exactly foldRamp + 101 ticks, whatever happens, and idle is next. */
  lemma {:induction false} LieDownIsExact(p: Params, ms: seq<Machine>, ins: seq<Input>, t: nat)
    requires Segment(p, ms, ins) && |ins| >= 1 && ms[0].mode == Change && ms[0].next == Down && RampFits(ms[1])
    requires 1 <= t < |ms|
    ensures var last := ms[1].down.foldRamp + 101;
      (t <= last ==> LyingDown(ms[t]) && ms[t].down.stateIter == t && ms[t].down.foldRamp == ms[1].down.foldRamp)
      && (t == last + 1 ==> ms[t].current == Passive)
  {
    hide Tick, MachineFits, InputFits;
    assert ms[t] == Tick(p, ms[t - 1], ins[t - 1]);
    if t == 1 {
      LieDownEntry(p, ms[0], ins[0]);
    } else {
      LieDownIsExact(p, ms, ins, t - 1);
      if t - 1 <= LastRun(ms[1]) {
        LieDownTick(p, ms[t - 1], ins[t - 1]);
      }
    }
  }

  // ----- From a policy to idle -----

  ghost predicate RampsFit(ms: seq<Machine>) {
    forall t :: 0 <= t < |ms| && ms[t].current == Down ==> RampFits(ms[t])
  }

  /** Policies and lie-downs decide only for what may follow them. */
  ghost predicate Decided(m: Machine) {
    (m.current == Down ==> LyingDown(m))
    && (m.mode == Change && m.current.Rl? ==> m.next == Down || m.next.Rl?)
  }

  lemma DecidedTick(p: Params, m: Machine, i: Input)
    requires MachineFits(p, m) && InputFits(p, i) && HarmlessNames(p) && Decided(m)
    requires Tick(p, m, i).current == Down ==> RampFits(Tick(p, m, i))
    ensures Decided(Tick(p, m, i))
  {
    TickKeepsCurrent(p, m, i);
    if m.mode == Change {
      if m.next == Down {
        LieDownEntry(p, m, i);
      }
    } else if m.current == Down {
      LieDownTick(p, m, i);
    } else if m.current.Rl? {
      HarmlessLeadsSafely(p, m.current.k, i.command);
    }
  }

  lemma {:induction false} AlwaysDecided(p: Params, ms: seq<Machine>, ins: seq<Input>, t: nat)
    requires Segment(p, ms, ins) && Started(p, ms[0]) && HarmlessNames(p) && RampsFit(ms) && t < |ms|
    ensures Decided(ms[t])
  {
    hide Tick, Decided;
    if t == 0 {
      StartDecided(p, ms[0]);
    } else {
      AlwaysDecided(p, ms, ins, t - 1);
      assert ms[t] == Tick(p, ms[t - 1], ins[t - 1]);
      DecidedTick(p, ms[t - 1], ins[t - 1]);
    }
  }

  lemma StartDecided(p: Params, m: Machine)
    requires Started(p, m)
    ensures Decided(m)
  {
  }

  /** A lie-down found at run s of its stretch was lying down for all the s - 1 ticks before, after an entry. */
  lemma {:induction false} LieDownBehind(p: Params, ms: seq<Machine>, ins: seq<Input>, t: nat, d: nat)
    requires Segment(p, ms, ins) && Started(p, ms[0]) && HarmlessNames(p) && RampsFit(ms) && t < |ms|
    requires ms[t].current == Down && d <= ms[t].down.stateIter
    ensures 1 <= ms[t].down.stateIter <= t
    ensures d < ms[t].down.stateIter ==>
      ms[t - d].current == Down && ms[t - d].down.stateIter == ms[t].down.stateIter - d
    ensures d == ms[t].down.stateIter ==>
      ms[t - d].mode == Change && ms[t - d].next == Down && ms[t - d].current != Down
    decreases t, d
  {
    hide Tick, MachineFits, InputFits;
    AlwaysDecided(p, ms, ins, t);
    assert t >= 1;
    LieDownBefore(p, ms, ins, t);
    if ms[t].down.stateIter > 1 {
      LieDownBehind(p, ms, ins, t - 1, if d > 0 then d - 1 else 0);
    }
  }

  lemma LieDownBefore(p: Params, ms: seq<Machine>, ins: seq<Input>, t: nat)
    requires Segment(p, ms, ins) && Started(p, ms[0]) && HarmlessNames(p) && RampsFit(ms) && 1 <= t < |ms|
    requires ms[t].current == Down
    ensures if ms[t].down.stateIter == 1 then ms[t - 1].mode == Change && ms[t - 1].next == Down
            && ms[t - 1].current != Down
            else ms[t - 1].current == Down && ms[t - 1].down.stateIter == ms[t].down.stateIter - 1
  {
    hide Tick, MachineFits, InputFits;
    var (m, i) := (ms[t - 1], ins[t - 1]);
    assert ms[t] == Tick(p, m, i);
    AlwaysDecided(p, ms, ins, t - 1);
    TickKeepsCurrent(p, m, i);
    if m.mode == Change {
      LieDownEntry(p, m, i);
    } else {
      LieDownTick(p, m, i);
    }
  }

  /** Until idle runs again, a policy is followed only by policies and lie-downs. */
  lemma {:induction false} PolicyStretch(p: Params, ms: seq<Machine>, ins: seq<Input>, i: nat, t: nat)
    requires Segment(p, ms, ins) && Started(p, ms[0]) && HarmlessNames(p) && RampsFit(ms)
    requires i <= t < |ms| && ms[i].current.Rl? && forall u :: i < u <= t ==> ms[u].current != Passive
    ensures ms[t].current.Rl? || ms[t].current == Down
  {
    hide Tick, MachineFits, InputFits;
    if t > i {
      PolicyStretch(p, ms, ins, i, t - 1);
      AlwaysDecided(p, ms, ins, t - 1);
      assert ms[t] == Tick(p, ms[t - 1], ins[t - 1]);
      TickKeepsCurrent(p, ms[t - 1], ins[t - 1]);
    }
  }

  /** Before a lie-down that a policy led to, only policies ran. */
  lemma {:induction false} OnlyPoliciesBefore(p: Params, ms: seq<Machine>, ins: seq<Input>, i: nat, b: nat, u: nat)
    requires Segment(p, ms, ins) && Started(p, ms[0]) && HarmlessNames(p) && RampsFit(ms)
    requires i <= u <= b < |ms| && ms[i].current.Rl? && ms[b].current.Rl?
    requires forall v :: i < v <= b ==> ms[v].current != Passive
    ensures ms[u].current.Rl?
    decreases b - u
  {
    if u < b {
      OnlyPoliciesBefore(p, ms, ins, i, b, u + 1);
      hide Tick, MachineFits, InputFits;
      PolicyStretch(p, ms, ins, i, u);
      AlwaysDecided(p, ms, ins, u);
      assert ms[u + 1] == Tick(p, ms[u], ins[u]);
      TickKeepsCurrent(p, ms[u], ins[u]);
    }
  }

  /**
   Once a policy has run, the first idle run after it comes right after one whole lie-down of
   foldRamp + 101 runs, and everything before that lie-down was policies.
   */
  lemma IdleAfterPolicy(p: Params, ms: seq<Machine>, ins: seq<Input>, i: nat, j: nat)
    requires Segment(p, ms, ins) && Started(p, ms[0]) && HarmlessNames(p) && RampsFit(ms)
    requires i < j < |ms| && ms[i].current.Rl? && ms[j].current == Passive
    requires forall u :: i < u < j ==> ms[u].current != Passive
    ensures var last := ms[j - 1].down.foldRamp + 101;
      last >= 1 && i < j - last && ms[j - last - 1].mode == Change && ms[j - last - 1].next == Down
      && (forall u :: i <= u < j - last ==> ms[u].current.Rl?)
      && (forall u :: j - last <= u < j ==> ms[u].current == Down && ms[u].down.stateIter == u - (j - last) + 1)
  {
    hide Tick, MachineFits, InputFits;
    PolicyStretch(p, ms, ins, i, j - 1);
    AlwaysDecided(p, ms, ins, j - 1);
    assert ms[j] == Tick(p, ms[j - 1], ins[j - 1]);
    TickKeepsCurrent(p, ms[j - 1], ins[j - 1]);
    var last := LastRun(ms[j - 1]);
    assert ms[j - 1].down.stateIter == last;
    forall u | 0 <= u < j && j - last <= u
      ensures ms[u].current == Down && ms[u].down.stateIter == u - (j - last) + 1
    {
      LieDownBehind(p, ms, ins, j - 1, j - 1 - u);
    }
    LieDownBehind(p, ms, ins, j - 1, last);
    PolicyStretch(p, ms, ins, i, j - last - 1);
    forall u | i <= u < j - last
      ensures ms[u].current.Rl?
    {
      OnlyPoliciesBefore(p, ms, ins, i, j - last - 1, u);
    }
  }

  // ----- Standing up -----

  function Orientations(ins: seq<Input>): seq<Orientation.Quat> {
    seq(|ins|, t requires 0 <= t < |ins| => ins[t].quat)
  }

  /** One stand-up: entered on the first tick, not left before the last. */
  ghost predicate StandUpStretch(p: Params, ms: seq<Machine>, ins: seq<Input>) {
    Segment(p, ms, ins) && |ins| >= 1 && ms[0].mode == Change && ms[0].next == Up
    && forall t :: 1 <= t < |ins| ==> ms[t].mode == Normal
  }

  /** The state the stand-up began in, before its first run. */
  function Begun(p: Params, m: Machine, i: Input): TransformUp.State
    requires MachineFits(p, m) && InputFits(p, i)
  {
    TransformUp.Entered(p, m.up, i.q, i.quat)
  }

  lemma StandUpTick(p: Params, m: Machine, i: Input)
    requires MachineFits(p, m) && InputFits(p, i)
    ensures m.mode == Change && m.next == Up ==>
      Begun(p, m, i).Sized(p.joints)
      && Tick(p, m, i).current == Up && Tick(p, m, i).up == TransformUp.Advanced(Begun(p, m, i), i.quat)
      && Tick(p, m, i).cmd == TransformUp.Commanded(p, Begun(p, m, i))
    ensures m.mode == Normal && m.current == Up ==>
      Tick(p, m, i).current == Up && Tick(p, m, i).up == TransformUp.Advanced(m.up, i.quat)
      && Tick(p, m, i).cmd == TransformUp.Commanded(p, m.up)
      && (Tick(p, m, i).mode == Change <==> TransformUp.NextName(p, Tick(p, m, i).up, i.command) != "transform_up")
  {
    hide TransformUp.Advanced, TransformUp.Commanded, ScaledTicks, Ticks, TransformUp.UpsideDown,
      TransformUp.NextName, StateMap;
  }

  /** The t-th run of a stand-up is the t-th run of its own state, and its command is that run's. */
  lemma {:induction false} StandUpIs(p: Params, ms: seq<Machine>, ins: seq<Input>, t: nat)
    requires StandUpStretch(p, ms, ins) && 1 <= t < |ms|
    ensures var (s, quats) := (Begun(p, ms[0], ins[0]), Orientations(ins));
      s.Sized(p.joints) && ms[t].current == Up && ms[t].up == StandUpRuns.After(s, quats[..t])
      && ms[t].cmd == TransformUp.Commanded(p, StandUpRuns.After(s, quats[..t - 1]))
  {
    hide Tick, TransformUp.Advanced, TransformUp.Commanded, TransformUp.Entered;
    var (s, quats) := (Begun(p, ms[0], ins[0]), Orientations(ins));
    assert ms[t] == Tick(p, ms[t - 1], ins[t - 1]);
    StandUpTick(p, ms[t - 1], ins[t - 1]);
    assert quats[..t][..t - 1] == quats[..t - 1];
    if t > 1 {
      StandUpIs(p, ms, ins, t - 1);
    }
  }

  /** The operator asks for a mode the stand-up would hand over to. */
  predicate AsksToLeave(p: Params, command: Command) {
    match command
    case DesiredJointPD => true
    case DesiredDown => true
    case DesiredRl(number) => PolicyName(p, number, "transform_up") != "transform_up"
    case _ => false
  }

  lemma RequestLeaves(p: Params, s: TransformUp.State, command: Command)
    ensures TransformUp.NextName(p, s, command) != "transform_up"
            <==> TransformUp.GateOpen(s.stateIter, s.foldRamp, s.standRamp) && AsksToLeave(p, command)
  {
    hide TransformUp.GateOpen;
  }

  /** The gate on run |ins|. */
  lemma GateInRun(p: Params, ms: seq<Machine>, ins: seq<Input>, s: TransformUp.State)
    requires StandUpStretch(p, ms, ins) && s == Begun(p, ms[0], ins[0])
    ensures var up := ms[|ins|].up;
      TransformUp.GateOpen(up.stateIter, up.foldRamp, up.standRamp)
      <==> TransformUp.Due(|ins|, s.foldRamp, s.standRamp)
  {
    hide Tick, Begun, TransformUp.GateOpen, StandUpRuns.After, Wrap64, Params.Valid, TransformUp.Due;
    var (quats, n) := (Orientations(ins), |ins|);
    StandUpIs(p, ms, ins, n);
    assert quats[..n] == quats;
    BegunAtZero(p, ms[0], ins[0]);
    StandUpRuns.CounterCounts(s, quats);
    TransformUp.GateExact(n, s.foldRamp, s.standRamp);
  }

  /**
   A request leaves a stand-up exactly when it is due, for every count and all ramps: at 100 to
   2^31 - 1 runs past both ramps, modulo 2^32.
   */
  lemma LeavesExactlyWhen(p: Params, ms: seq<Machine>, ins: seq<Input>, s: TransformUp.State)
    requires StandUpStretch(p, ms, ins) && 2 <= |ins| && s == Begun(p, ms[0], ins[0])
    ensures ms[|ins|].mode == Change
            <==> TransformUp.Due(|ins|, s.foldRamp, s.standRamp) && AsksToLeave(p, ins[|ins| - 1].command)
  {
    hide Tick, Begun, TransformUp.GateOpen, TransformUp.NextName, TransformUp.Advanced, TransformUp.Commanded,
      AsksToLeave, Params.Valid, TransformUp.Due;
    var n := |ins|;
    StandUpIs(p, ms, ins, n - 1);
    assert ms[n] == Tick(p, ms[n - 1], ins[n - 1]);
    StandUpTick(p, ms[n - 1], ins[n - 1]);
    GateInRun(p, ms, ins, s);
    RequestLeaves(p, ms[n].up, ins[n - 1].command);
  }

  /** Both ramps are ints, and together they fit the gate's arithmetic. */
  ghost predicate RampsFitGate(s: TransformUp.State) {
    0 <= s.foldRamp < I31 && 0 <= s.standRamp < I31 && s.foldRamp + s.standRamp <= I31 + 2
  }

  /** With ramps that fit, no command leaves a stand-up before foldRamp + standRamp + 100 runs. */
  lemma NeverLeavesEarly(p: Params, ms: seq<Machine>, ins: seq<Input>, s: TransformUp.State)
    requires StandUpStretch(p, ms, ins) && 2 <= |ins| && s == Begun(p, ms[0], ins[0]) && RampsFitGate(s)
    ensures ms[|ins|].mode == Change ==> |ins| >= s.foldRamp + s.standRamp + 100
  {
    LeavesExactlyWhen(p, ms, ins, s);
    hide StandUpStretch, Begun;
    TransformUp.GateExact(|ins|, s.foldRamp, s.standRamp);
    TransformUp.NeverEarlyIff(s.foldRamp, s.standRamp);
  }

  /**
   The ramps a stand-up begins with, for timers that are not negative: the whole ticks of the stand timer, and
   those of the fold timer times the largest distance of a joint from its fold pose, fractions dropped.
   */
  lemma BegunRamps(p: Params, m: Machine, i: Input) returns (foldTicks: int)
    requires MachineFits(p, m) && InputFits(p, i) && p.updateRate >= 0
    requires p.up.foldTimer >= 0.0 && p.up.standTimer >= 0.0
    ensures var (s, rate) := (Begun(p, m, i), p.updateRate as real);
      |s.fold| == p.joints
      && foldTicks as real <= Times(p.up.foldTimer, rate) < foldTicks as real + 1.0
      && s.standRamp as real <= Times(p.up.standTimer, rate) < s.standRamp as real + 1.0
      && s.foldRamp as real <= Times(foldTicks as real, MaxDistance(i.q, s.fold)) < s.foldRamp as real + 1.0
  {
    foldTicks := Ticks(p.up.foldTimer, p.updateRate);
    JointRamp.TicksCount(p.up.foldTimer, p.updateRate);
    JointRamp.TicksCount(p.up.standTimer, p.updateRate);
    JointRamp.ScaledCount(foldTicks, i.q, Pinned(p.wheels, m.up.fold, i.q));
    hide Ticks, ScaledTicks, Times, MaxDistance, TransformUp.UpsideDown;
  }

  /** While no request comes that is due, a stand-up goes on. */
  lemma {:induction false} KeepsStanding(
    p: Params, ms: seq<Machine>, ins: seq<Input>, s: TransformUp.State, t: nat)
    requires Segment(p, ms, ins) && |ins| >= 1 && ms[0].mode == Change && ms[0].next == Up
    requires s == Begun(p, ms[0], ins[0]) && 1 <= t < |ms|
    requires forall r :: 2 <= r <= t ==>
      !(TransformUp.Due(r, s.foldRamp, s.standRamp) && AsksToLeave(p, ins[r - 1].command))
    ensures forall u :: 1 <= u <= t ==> ms[u].mode == Normal && ms[u].current == Up
  {
    hide Tick, MachineFits, InputFits, Begun, AsksToLeave, TransformUp.Due;
    if t == 1 {
      assert ms[1] == Tick(p, ms[0], ins[0]);
      TickKeepsCurrent(p, ms[0], ins[0]);
    } else {
      KeepsStanding(p, ms, ins, s, t - 1);
      LeavesExactlyWhen(p, ms[..t + 1], ins[..t], s);
      assert ms[t] == Tick(p, ms[t - 1], ins[t - 1]);
      TickKeepsCurrent(p, ms[t - 1], ins[t - 1]);
    }
  }

  /** Nothing is asked, and then, on the last of n ticks, to leave for holding. */
  function LateRequest(i: Input, n: nat): seq<Input>
    requires n >= 1
  {
    seq(n - 1, t => i.(command := DesiredOther)) + [i.(command := DesiredJointPD)]
  }

  /** The run at which the gate has shut again: a first request, 2^31 runs past both ramps, is refused. */
  lemma LateRequestRefused(p: Params, m: Machine, i: Input, s: TransformUp.State, n: nat) returns (ms: seq<Machine>)
    requires MachineFits(p, m) && InputFits(p, i) && m.mode == Change && m.next == Up
    requires s == Begun(p, m, i) && n == s.foldRamp + s.standRamp + I31 && n >= 2
    ensures Segment(p, ms, LateRequest(i, n)) && ms[0] == m
    ensures ms[n].current == Up && ms[n].mode == Normal
  {
    var ins := LateRequest(i, n);
    ms := Trace(p, m, ins);
    assert Begun(p, m, ins[0]) == s;
    hide Tick, MachineFits, InputFits, Begun;
    TransformUp.GateExact(n, s.foldRamp, s.standRamp);
    TransformUp.GateShutsAgain(n, s.foldRamp, s.standRamp);
    hide TransformUp.Due;
    assert forall t :: 0 <= t < n - 1 ==> !AsksToLeave(p, ins[t].command);
    KeepsStanding(p, ms, ins, s, n);
  }

  lemma BegunAtZero(p: Params, m: Machine, i: Input)
    requires MachineFits(p, m) && InputFits(p, i)
    ensures Begun(p, m, i).stateIter == 0
  {
    hide ScaledTicks, Ticks, TransformUp.UpsideDown;
  }

  lemma BegunFolding(p: Params, m: Machine, i: Input)
    requires MachineFits(p, m) && InputFits(p, i) && 0 <= Begun(p, m, i).foldRamp < I31
    ensures StandUpRuns.Folding(Begun(p, m, i)) <==> !TransformUp.UpsideDown(i.quat)
    ensures Begun(p, m, i).Sized(p.joints) && Begun(p, m, i).initial == i.q
    ensures |p.up.standPose| == p.joints && p.Valid()
  {
    hide TransformUp.UpsideDown;
    StandUpRuns.EnteredFolding(p, m.up, i.q, i.quat);
  }

  /** Where a joint stands in run |quats| + 1, before the count wraps. */
  lemma StandUpJointState(p: Params, s: TransformUp.State, quats: seq<Orientation.Quat>, i: int)
    requires p.Valid() && s.Sized(p.joints) && StandUpRuns.Folding(s) && 0 <= s.standRamp < I31
    requires s.foldRamp < |quats| <= s.foldRamp + U32 && !TransformUp.UpsideDown(quats[s.foldRamp])
    requires 0 <= i < p.joints && i !in p.wheels
    ensures StandUpRuns.After(s, quats).Sized(p.joints)
    ensures |TransformUp.Commanded(p, StandUpRuns.After(s, quats)).qd| == p.joints
    ensures TransformUp.Commanded(p, StandUpRuns.After(s, quats)).qd[i]
            == Mix(Weight(|quats| - s.foldRamp - 1, s.standRamp), s.fold[i], p.up.standPose[i])
    ensures s.foldRamp + s.standRamp < |quats| && (s.standRamp >= 1 || |quats| > s.foldRamp + 1)
            ==> TransformUp.Commanded(p, StandUpRuns.After(s, quats)).qd[i] == Is(p.up.standPose[i])
  {
    hide *;
    FoldRampFits(s);
    StandUpRuns.AfterSized(s, quats, p.joints);
    CommandsEveryJoint(p, StandUpRuns.After(s, quats));
    StandUpRuns.StandTickSmall(|quats| - s.foldRamp - 1);
    StandUpRuns.StandingJoint(p, s, quats, i);
  }

  lemma FoldRampFits(s: TransformUp.State)
    requires StandUpRuns.Folding(s)
    ensures 0 <= s.foldRamp < s.foldRamp + U32 < U64
  {
  }

  lemma CommandsEveryJoint(p: Params, s: TransformUp.State)
    requires p.Valid() && s.Sized(p.joints)
    ensures |TransformUp.Commanded(p, s).qd| == p.joints
  {
  }

  /** Upright at entry and at the fold's end: what run t commands from foldRamp + 2 on, until the count wraps. */
  lemma StandUpJoint(p: Params, ms: seq<Machine>, ins: seq<Input>, s: TransformUp.State, t: nat, i: int)
    requires StandUpStretch(p, ms, ins) && s == Begun(p, ms[0], ins[0])
    requires 0 <= s.foldRamp < I31 && 0 <= s.standRamp < I31
    requires s.foldRamp + 2 <= t < |ms| && t <= s.foldRamp + U32 + 1
    requires !TransformUp.UpsideDown(ins[0].quat) && !TransformUp.UpsideDown(ins[s.foldRamp].quat)
    requires 0 <= i < p.joints && i !in p.wheels
    ensures |ms[t].cmd.qd| == |s.fold| == |p.up.standPose| == p.joints
    ensures ms[t].cmd.qd[i] == Mix(Weight(t - s.foldRamp - 2, s.standRamp), s.fold[i], p.up.standPose[i])
    ensures s.foldRamp + s.standRamp + 2 <= t && (s.standRamp >= 1 || t >= s.foldRamp + 3)
            ==> ms[t].cmd.qd[i] == Is(p.up.standPose[i])
  {
    var quats := Orientations(ins);
    hide TransformUp.UpsideDown, Tick, Begun, MachineFits, InputFits, Params.Valid;
    assert MachineFits(p, ms[0]) && InputFits(p, ins[0]);
    BegunFolding(p, ms[0], ins[0]);
    StandUpIs(p, ms, ins, t);
    assert |quats[..t - 1]| == t - 1 && quats[..t - 1][s.foldRamp] == ins[s.foldRamp].quat;
    hide *;
    StandUpJointState(p, s, quats[..t - 1], i);
  }

  /**
   Entered upright and upright when the fold ends, a stand-up commands the standing pose on every
   joint that is not a wheel from run foldRamp + standRamp + 2 on: at least the last 99 runs before
   it can be left.
   */
  lemma StandsBeforeLeaving(p: Params, ms: seq<Machine>, ins: seq<Input>, s: TransformUp.State, t: nat, i: int)
    requires StandUpStretch(p, ms, ins) && 2 <= |ins| && ms[|ins|].mode == Change
    requires s == Begun(p, ms[0], ins[0]) && RampsFitGate(s)
    requires s.foldRamp + s.standRamp + 2 <= t <= |ins| && t <= s.foldRamp + U32 + 1
    requires s.standRamp >= 1 || t >= s.foldRamp + 3
    requires Turning.Tilt(ins[0].quat) <= 0.5 && Turning.Tilt(ins[s.foldRamp].quat) <= 0.5
    requires 0 <= i < p.joints && i !in p.wheels
    ensures |ms[t].cmd.qd| == p.joints && ms[t].cmd.qd[i] == Is(p.up.standPose[i])
    ensures |ins| - (s.foldRamp + s.standRamp + 1) >= 99
  {
    TransformUp.TiltDecides(ins[0].quat);
    TransformUp.TiltDecides(ins[s.foldRamp].quat);
    NeverLeavesEarly(p, ms, ins, s);
    hide Tick, TransformUp.UpsideDown, Begun, StandUpStretch;
    StandUpJoint(p, ms, ins, s, t, i);
  }

  /** Entered upside down, a stand-up commands nothing at all; the gate still counts. */
  lemma UpsideDownSendsZero(p: Params, ms: seq<Machine>, ins: seq<Input>, t: nat)
    requires StandUpStretch(p, ms, ins) && 1 <= t < |ms| && Turning.Tilt(ins[0].quat) > 0.5
    ensures ms[t].cmd == ZeroCmd(p.joints)
  {
    TransformUp.TiltDecides(ins[0].quat);
    var (s, quats) := (Begun(p, ms[0], ins[0]), Orientations(ins));
    StandUpIs(p, ms, ins, t);
    hide Tick, TransformUp.UpsideDown, ScaledTicks, Ticks, StandUpRuns.After;
    StandUpRuns.RollOverOnlyCounts(s, quats[..t - 1]);
  }

  /** Upright at entry but upside down when the fold ends, it commands nothing from run foldRamp + 2 on. */
  lemma UpsideDownAtFoldSendsZero(
    p: Params, ms: seq<Machine>, ins: seq<Input>, s: TransformUp.State, t: nat)
    requires StandUpStretch(p, ms, ins) && s == Begun(p, ms[0], ins[0]) && 0 <= s.foldRamp < I31
    requires s.foldRamp + 2 <= t < |ms|
    requires Turning.Tilt(ins[0].quat) <= 0.5 && Turning.Tilt(ins[s.foldRamp].quat) > 0.5
    ensures ms[t].cmd == ZeroCmd(p.joints)
  {
    TransformUp.TiltDecides(ins[0].quat);
    TransformUp.TiltDecides(ins[s.foldRamp].quat);
    var quats := Orientations(ins);
    hide TransformUp.UpsideDown, Tick, Begun, MachineFits, InputFits, Params.Valid;
    assert MachineFits(p, ms[0]) && InputFits(p, ins[0]);
    BegunFolding(p, ms[0], ins[0]);
    StandUpIs(p, ms, ins, t);
    assert quats[..t - 1][s.foldRamp] == ins[s.foldRamp].quat;
    hide StandUpRuns.After;
    StandUpRuns.AfterClosed(s, quats[..t - 1]);
  }

  // ----- Holding -----

  /** The pose held is the one measured on the tick that entered the mode. */
  lemma {:induction false} HoldsMeasuredPose(p: Params, ms: seq<Machine>, ins: seq<Input>, t: nat)
    requires Segment(p, ms, ins) && |ins| >= 1 && ms[0].mode == Change && ms[0].next == JointPD
    requires 1 <= t < |ms| && forall u :: 1 <= u < t ==> ms[u].mode == Normal
    ensures ms[t].current == JointPD && ms[t].held == ins[0].q && ms[t].cmd == HoldCmd(p, ins[0].q)
  {
    hide HoldCmd, StateMap;
    assert ms[t] == Tick(p, ms[t - 1], ins[t - 1]);
    if t > 1 {
      HoldsMeasuredPose(p, ms, ins, t - 1);
    }
  }

  // ----- Fold trajectories -----

  /** Every fold pose in use is the configured one on each joint that is not a wheel. */
  ghost predicate KeepsPoses(p: Params, m: Machine)
    requires MachineFits(p, m)
  {
    forall i :: 0 <= i < p.joints && i !in p.wheels ==>
      m.up.fold[i] == p.up.foldPose[i] && m.down.fold[i] == p.down.foldPose[i]
  }

  lemma {:induction false} PosesKept(p: Params, ms: seq<Machine>, ins: seq<Input>, t: nat)
    requires Segment(p, ms, ins) && Started(p, ms[0]) && t < |ms|
    ensures KeepsPoses(p, ms[t])
  {
    if t > 0 {
      PosesKept(p, ms, ins, t - 1);
      assert ms[t] == Tick(p, ms[t - 1], ins[t - 1]);
      PosesKeptByTick(p, ms[t - 1], ins[t - 1]);
    }
  }

  lemma PosesKeptByTick(p: Params, m: Machine, i: Input)
    requires MachineFits(p, m) && InputFits(p, i) && KeepsPoses(p, m)
    ensures KeepsPoses(p, Tick(p, m, i))
  {
    hide TransformUp.Commanded, TransformDown.Commanded, TransformUp.NextName, TransformUp.UpsideDown, ScaledTicks,
      Ticks, StateMap, IdleCmd, HoldCmd;
  }

  /** The pose a fold aims at: the configured one, with every wheel where it is measured on entry. */
  lemma FoldPoseOnEntry(p: Params, ms: seq<Machine>, ins: seq<Input>, t: nat, i: int)
    requires Segment(p, ms, ins) && Started(p, ms[0]) && t < |ins| && ms[t].mode == Change && 0 <= i < p.joints
    ensures ms[t].next == Up ==>
      |ms[t + 1].up.fold| == p.joints
      && ms[t + 1].up.fold[i] == if i in p.wheels then ins[t].q[i] else p.up.foldPose[i]
    ensures ms[t].next == Down ==>
      |ms[t + 1].down.fold| == p.joints
      && ms[t + 1].down.fold[i] == if i in p.wheels then ins[t].q[i] else p.down.foldPose[i]
  {
    PosesKept(p, ms, ins, t);
    assert ms[t + 1] == Tick(p, ms[t], ins[t]);
    assert MachineFits(p, ms[t]) && InputFits(p, ins[t]);
    hide TransformUp.Commanded, TransformDown.Commanded, TransformUp.UpsideDown, ScaledTicks, Ticks, Segment;
  }

  /** Two setpoints of one joint, a tick apart: nearer the final pose, and by less than 2/ticks. */
  ghost predicate Gentle(x: Number, y: Number, fin: real, ticks: int) {
    x.Is? && y.Is? && Abs(fin - y.value) <= Abs(fin - x.value)
    && ticks >= 1 && Times(ticks as real, Abs(y.value - x.value)) < 2.0
  }

  lemma RampIsGentle(ticks: int, ini: seq<real>, fin: seq<real>, c: int, i: int)
    requires |ini| == |fin| > 0 && 0 <= i < |ini| && 0 <= c < ScaledTicks(ticks, ini, fin) < I31
    ensures var n := ScaledTicks(ticks, ini, fin);
      Gentle(Setpoints(c, n, ini, fin)[i], Setpoints(c + 1, n, ini, fin)[i], fin[i], ticks)
      && Setpoints(0, n, ini, fin)[i] == Is(ini[i])
  {
    var n := ScaledTicks(ticks, ini, fin);
    JointRamp.StepBound(ticks, ini, fin, c, i);
    JointRamp.RampShape(c, n, ini[i], fin[i]);
    hide Weight, ScaledTicks, Times, JointRamp.Part;
    JointRamp.MixIs(Weight(c, n), ini[i], fin[i]);
    JointRamp.MixIs(Weight(c + 1, n), ini[i], fin[i]);
    JointRamp.MixIs(Weight(0, n), ini[i], fin[i]);
    hide Mix;
  }

  /** A stand-up's fold starts at the measured pose and closes in on the fold pose gently, from any pose. */
  lemma StandUpFoldIsGentle(p: Params, ms: seq<Machine>, ins: seq<Input>, s: TransformUp.State, t: nat, i: int)
    requires StandUpStretch(p, ms, ins) && s == Begun(p, ms[0], ins[0]) && Turning.Tilt(ins[0].quat) <= 0.5
    requires 1 <= t <= s.foldRamp < I31 && t < |ins| && 0 <= i < p.joints && i !in p.wheels
    ensures |ms[1].cmd.qd| == |ms[t].cmd.qd| == |ms[t + 1].cmd.qd| == p.joints && |s.fold| == p.joints
    ensures ms[1].cmd.qd[i] == Is(ins[0].q[i])
    ensures Gentle(ms[t].cmd.qd[i], ms[t + 1].cmd.qd[i], s.fold[i], Ticks(p.up.foldTimer, p.updateRate))
  {
    assert MachineFits(p, ms[0]) && InputFits(p, ins[0]);
    RampIsGentle(Ticks(p.up.foldTimer, p.updateRate), s.initial, s.fold, t - 1, i);
    hide Tick, TransformUp.UpsideDown, Begun, Gentle, Ticks, ScaledTicks, Setpoints;
    TransformUp.TiltDecides(ins[0].quat);
    BegunFolding(p, ms[0], ins[0]);
    FoldCommand(p, ms, ins, s, 1, i);
    FoldCommand(p, ms, ins, s, t, i);
    FoldCommand(p, ms, ins, s, t + 1, i);
  }

  lemma FoldCommand(p: Params, ms: seq<Machine>, ins: seq<Input>, s: TransformUp.State, t: nat, i: int)
    requires StandUpStretch(p, ms, ins) && s == Begun(p, ms[0], ins[0]) && StandUpRuns.Folding(s) && p.Valid()
    requires 1 <= t <= s.foldRamp + 1 && t < |ms| && 0 <= i < p.joints && i !in p.wheels
    ensures |ms[t].cmd.qd| == |s.initial| == |s.fold| == p.joints
    ensures ms[t].cmd.qd[i] == Setpoints(t - 1, s.foldRamp, s.initial, s.fold)[i]
  {
    var quats := Orientations(ins);
    hide Tick, Begun, Setpoints, StandUpRuns.After, Params.Valid;
    StandUpIs(p, ms, ins, t);
    StandUpRuns.FoldSetpoints(p, s, quats[..t - 1]);
    StandUpRuns.AfterFlag(s, quats[..t - 1]);
    CommandsEveryJoint(p, StandUpRuns.After(s, quats[..t - 1]));
  }

  /** One whole lie-down, entered on the first tick in state s. */
  ghost predicate LieDownStretch(p: Params, ms: seq<Machine>, ins: seq<Input>, s: TransformDown.State) {
    Segment(p, ms, ins) && |ins| >= 1 && ms[0].mode == Change && ms[0].next == Down && RampFits(ms[1])
    && s == TransformDown.Entered(p, ms[0].down, ins[0].q)
  }

  /** So with the ramp of a lie-down. */
  lemma LieDownRamp(p: Params, ms: seq<Machine>, ins: seq<Input>, s: TransformDown.State) returns (foldTicks: int)
    requires LieDownStretch(p, ms, ins, s) && p.updateRate >= 0 && p.down.foldTimer >= 0.0
    ensures |s.fold| == p.joints == |ins[0].q|
    ensures foldTicks as real <= Times(p.down.foldTimer, p.updateRate as real) < foldTicks as real + 1.0
    ensures s.foldRamp as real <= Times(foldTicks as real, MaxDistance(ins[0].q, s.fold)) < s.foldRamp as real + 1.0
  {
    hide Tick;
    foldTicks := Ticks(p.down.foldTimer, p.updateRate);
    JointRamp.TicksCount(p.down.foldTimer, p.updateRate);
    assert MachineFits(p, ms[0]) && InputFits(p, ins[0]);
    JointRamp.ScaledCount(foldTicks, ins[0].q, Pinned(p.wheels, ms[0].down.fold, ins[0].q));
    hide Ticks, ScaledTicks, Times, MaxDistance;
  }

  /**
   Run t commands the fold ramp at tick t - 1, and from run foldRamp + 1 on holds the fold pose; a ramp of
   length 0 starts with 0/0.
   */
  lemma LieDownSetpoint(p: Params, ms: seq<Machine>, ins: seq<Input>, s: TransformDown.State, t: nat, i: int)
    requires LieDownStretch(p, ms, ins, s) && 1 <= t <= ms[1].down.foldRamp + 101 && t < |ms|
    requires 0 <= i < p.joints && i !in p.wheels
    ensures s.Sized(p.joints) && |ms[t].cmd.qd| == p.joints && ms[1].down.foldRamp == s.foldRamp
    ensures ms[t].cmd.qd[i] == Setpoints(t - 1, s.foldRamp, s.initial, s.fold)[i]
    ensures t == 1 && s.foldRamp == 0 ==> ms[t].cmd.qd[i] == NaN
    ensures t > s.foldRamp && t > 1 ==> ms[t].cmd.qd[i] == Is(s.fold[i])
  {
    hide Tick, ScaledTicks, Ticks, ToInt;
    LieDownCommands(p, ms, ins, t);
    assert s.stateIter == 0 && !s.finished && t - 1 <= s.foldRamp + TransformDown.HOLD;
    SetpointIs(t - 1, s.foldRamp, s.initial, s.fold, i);
    hide *;
    TransformDown.HoldsFoldPose(p, s, t - 1, i);
  }

  lemma SetpointIs(c: int, n: int, ini: seq<real>, fin: seq<real>, i: int)
    requires 0 <= i < |ini| == |fin|
    ensures |Setpoints(c, n, ini, fin)| == |ini| && Setpoints(c, n, ini, fin)[i] == Mix(Weight(c, n), ini[i], fin[i])
  {
  }

  /** A lie-down's fold starts at the measured pose and closes in on the fold pose gently, from any pose. */
  lemma LieDownIsGentle(p: Params, ms: seq<Machine>, ins: seq<Input>, s: TransformDown.State, t: nat, i: int)
    requires LieDownStretch(p, ms, ins, s) && 1 <= t <= s.foldRamp && t + 1 < |ms|
    requires 0 <= i < p.joints && i !in p.wheels
    ensures |ms[1].cmd.qd| == |ms[t].cmd.qd| == |ms[t + 1].cmd.qd| == p.joints && |s.fold| == p.joints
    ensures ms[1].cmd.qd[i] == Is(ins[0].q[i])
    ensures Gentle(ms[t].cmd.qd[i], ms[t + 1].cmd.qd[i], s.fold[i], Ticks(p.down.foldTimer, p.updateRate))
  {
    hide Tick, Gentle, Ticks, ScaledTicks, Setpoints;
    LieDownCommands(p, ms, ins, 1);
    LieDownSetpoint(p, ms, ins, s, 1, i);
    LieDownSetpoint(p, ms, ins, s, t, i);
    LieDownSetpoint(p, ms, ins, s, t + 1, i);
    RampIsGentle(Ticks(p.down.foldTimer, p.updateRate), s.initial, s.fold, t - 1, i);
  }

  lemma {:induction false} LieDownCommands(p: Params, ms: seq<Machine>, ins: seq<Input>, t: nat)
    requires Segment(p, ms, ins) && |ins| >= 1 && ms[0].mode == Change && ms[0].next == Down && RampFits(ms[1])
    requires 1 <= t <= LastRun(ms[1]) && t < |ms|
    ensures var s := TransformDown.Entered(p, ms[0].down, ins[0].q);
      s.Sized(p.joints) && TransformDown.After(s, t - 1).Sized(p.joints)
      && ms[t].down == TransformDown.After(s, t)
          && ms[t].cmd == TransformDown.Commanded(p, TransformDown.After(s, t - 1))
      && ms[1].down.fold == s.fold && ms[1].down.foldRamp == s.foldRamp
  {
    hide TransformDown.Commanded, ScaledTicks, Ticks, StateMap, ToInt;
    assert ms[t] == Tick(p, ms[t - 1], ins[t - 1]);
    var s := TransformDown.Entered(p, ms[0].down, ins[0].q);
    assert TransformDown.After(s, 1) == TransformDown.Advanced(TransformDown.After(s, 0));
    if t > 1 {
      LieDownIsExact(p, ms, ins, t - 1);
      LieDownCommands(p, ms, ins, t - 1);
    }
  }

  // ----- The first command of a ramp, and the way up -----

  /**
   The first command of an upright stand-up is 0/0 exactly if less than one configured tick's worth is to
   be moved.
   */
  lemma StandUpStartsUndefinedIff(p: Params, ms: seq<Machine>, ins: seq<Input>, s: TransformUp.State, i: int)
    requires StandUpStretch(p, ms, ins) && s == Begun(p, ms[0], ins[0]) && Turning.Tilt(ins[0].quat) <= 0.5
    requires |s.fold| == p.joints && 0 <= i < p.joints && i !in p.wheels
    requires var n := Ticks(p.up.foldTimer, p.updateRate);
      n >= 0 && JointRamp.Reach(n, ins[0].q, s.fold) < I31 as real
    ensures |ms[1].cmd.qd| == p.joints
    ensures ms[1].cmd.qd[i] == NaN <==> JointRamp.Reach(Ticks(p.up.foldTimer, p.updateRate), ins[0].q, s.fold) < 1.0
  {
    TransformUp.TiltDecides(ins[0].quat);
    assert s.fold == Pinned(p.wheels, ms[0].up.fold, ins[0].q);
    hide Tick, TransformUp.UpsideDown, ScaledTicks, Ticks, JointRamp.Reach, Params.Valid;
    StandUpIs(p, ms, ins, 1);
    assert StandUpRuns.After(s, Orientations(ins)[..0]) == s;
    StandUpRuns.FirstCommandUndefinedIff(p, ms[0].up, ins[0].q, ins[0].quat, i);
  }

  /** So it is for a lie-down. */
  lemma LieDownStartsUndefinedIff(p: Params, ms: seq<Machine>, ins: seq<Input>, s: TransformDown.State, i: int)
    requires LieDownStretch(p, ms, ins, s) && |s.fold| == p.joints && 0 <= i < p.joints && i !in p.wheels
    requires var n := Ticks(p.down.foldTimer, p.updateRate);
      n >= 0 && JointRamp.Reach(n, ins[0].q, s.fold) < (I31 - TransformDown.HOLD) as real
    ensures |ms[1].cmd.qd| == p.joints
    ensures ms[1].cmd.qd[i] == NaN <==> JointRamp.Reach(Ticks(p.down.foldTimer, p.updateRate), ins[0].q, s.fold) < 1.0
  {
    assert s.fold == Pinned(p.wheels, ms[0].down.fold, ins[0].q);
    hide Tick, ScaledTicks, Ticks, JointRamp.Reach, Params.Valid;
    LieDownCommands(p, ms, ins, 1);
    assert TransformDown.After(s, 0) == s;
    TransformDown.FirstCommandUndefinedIff(p, ms[0].down, ins[0].q, i);
  }

  /** The last run of the fold and the first of the way up command the same pose. */
  lemma NoJumpInRun(p: Params, ms: seq<Machine>, ins: seq<Input>, s: TransformUp.State, i: int)
    requires StandUpStretch(p, ms, ins) && s == Begun(p, ms[0], ins[0])
    requires 1 <= s.foldRamp < I31 && 1 <= s.standRamp < I31 && s.foldRamp + 2 < |ms|
    requires Turning.Tilt(ins[0].quat) <= 0.5 && Turning.Tilt(ins[s.foldRamp].quat) <= 0.5
    requires 0 <= i < p.joints && i !in p.wheels
    ensures |ms[s.foldRamp + 1].cmd.qd| == |ms[s.foldRamp + 2].cmd.qd| == |s.fold| == p.joints
    ensures ms[s.foldRamp + 1].cmd.qd[i] == ms[s.foldRamp + 2].cmd.qd[i] == Is(s.fold[i])
  {
    var (quats, f) := (Orientations(ins), s.foldRamp);
    assert MachineFits(p, ms[0]) && InputFits(p, ins[0]) && |ms| == |ins| + 1 && |quats| == |ins|;
    assert quats[..f + 1][..f] == quats[..f] && quats[..f + 1][f] == ins[f].quat;
    hide *;
    TransformUp.TiltDecides(ins[0].quat);
    TransformUp.TiltDecides(ins[f].quat);
    BegunFolding(p, ms[0], ins[0]);
    StandUpIs(p, ms, ins, f + 1);
    StandUpIs(p, ms, ins, f + 2);
    StandUpRuns.AfterSized(s, quats[..f], p.joints);
    StandUpRuns.AfterSized(s, quats[..f + 1], p.joints);
    CommandsEveryJoint(p, StandUpRuns.After(s, quats[..f]));
    CommandsEveryJoint(p, StandUpRuns.After(s, quats[..f + 1]));
    StandUpRuns.NoJump(p, s, quats[..f + 1], i);
  }

  /** One tick of a ramp of n: an n-th of the whole way, and nearer its end. */
  ghost predicate Climbs(x: Number, y: Number, ini: real, fin: real, n: int)
    requires n >= 1
  {
    x.Is? && y.Is? && y.value - x.value == Times(JointRamp.Part(n), fin - ini)
    && Abs(fin - y.value) <= Abs(fin - x.value)
  }

  lemma RampClimbs(c: int, n: int, ini: real, fin: real)
    requires 0 <= c < n < I31
    ensures Climbs(Mix(Weight(c, n), ini, fin), Mix(Weight(c + 1, n), ini, fin), ini, fin, n)
  {
    JointRamp.RampShape(c, n, ini, fin);
    hide Weight, Times, JointRamp.Part;
    JointRamp.MixIs(Weight(c, n), ini, fin);
    JointRamp.MixIs(Weight(c + 1, n), ini, fin);
    hide Mix;
  }

  /** From the fold pose to the standing pose, every tick moves a joint by the same standRamp-th of the way. */
  lemma StandUpClimbs(p: Params, ms: seq<Machine>, ins: seq<Input>, s: TransformUp.State, t: nat, i: int)
    requires StandUpStretch(p, ms, ins) && s == Begun(p, ms[0], ins[0])
    requires 0 <= s.foldRamp < I31 && 1 <= s.standRamp < I31
    requires s.foldRamp + 2 <= t < s.foldRamp + s.standRamp + 2 && t + 1 < |ms|
    requires Turning.Tilt(ins[0].quat) <= 0.5 && Turning.Tilt(ins[s.foldRamp].quat) <= 0.5
    requires 0 <= i < p.joints && i !in p.wheels
    ensures |ms[t].cmd.qd| == |ms[t + 1].cmd.qd| == |s.fold| == p.joints
    ensures Climbs(ms[t].cmd.qd[i], ms[t + 1].cmd.qd[i], s.fold[i], p.up.standPose[i], s.standRamp)
  {
    TransformUp.TiltDecides(ins[0].quat);
    TransformUp.TiltDecides(ins[s.foldRamp].quat);
    RampClimbs(t - s.foldRamp - 2, s.standRamp, s.fold[i], p.up.standPose[i]);
    hide Tick, TransformUp.UpsideDown, Begun, Climbs;
    StandUpJoint(p, ms, ins, s, t, i);
    StandUpJoint(p, ms, ins, s, t + 1, i);
  }
}

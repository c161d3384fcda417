/** What every mode commands, joint by joint, in any run of the dispatcher. */
module ModeCommands {
  import Orientation
  import opened RobotControl
  import opened SimpleModes
  import opened Fsm
  import opened FsmRuns
  import opened ModeRuns
  import TransformUp
  import TransformDown
  import StandUpRuns
  import Turning

  /** Every vector of the command has an entry for every joint. */
  ghost predicate Covers(p: Params, c: LowCmd) {
    |c.tau| == |c.qd| == |c.qdDot| == |c.kp| == |c.kd| == p.joints
  }

  /** Joint i gets this torque, position and gains, and velocity 0. */
  ghost predicate Gets(p: Params, c: LowCmd, i: int, tau: real, qd: Number, kp: real, kd: real) {
    Covers(p, c) && 0 <= i < p.joints
    && c.tau[i] == tau && c.qd[i] == qd && c.qdDot[i] == 0.0 && c.kp[i] == kp && c.kd[i] == kd
  }

  /** Idle damps every joint with 5 and no wheel. */
  lemma IdleJoint(p: Params, ms: seq<Machine>, ins: seq<Input>, t: nat, i: int)
    requires Segment(p, ms, ins) && t < |ins| && ms[t + 1].current == Passive && 0 <= i < p.joints
    ensures Gets(p, ms[t + 1].cmd, i, 0.0, Is(0.0), 0.0, if i in p.wheels then 0.0 else 5.0)
  {
    assert ms[t + 1] == Tick(p, ms[t], ins[t]);
    hide StateMap, NextState;
  }

  /** A policy's tick sends what the policy wrote, unchanged. */
  lemma PolicyCommand(p: Params, ms: seq<Machine>, ins: seq<Input>, t: nat)
    requires Segment(p, ms, ins) && t < |ins| && ms[t + 1].current.Rl?
    ensures ms[t + 1].cmd == ins[t].policyCmd
  {
    assert ms[t + 1] == Tick(p, ms[t], ins[t]);
    hide StateMap, NextState;
  }

  /** Holding drives every joint, wheels too, to the pose measured on entry, without torque. */
  lemma HeldJoint(p: Params, ms: seq<Machine>, ins: seq<Input>, t: nat, i: int)
    requires Segment(p, ms, ins) && |ins| >= 1 && ms[0].mode == Change && ms[0].next == JointPD
    requires 1 <= t < |ms| && (forall u :: 1 <= u < t ==> ms[u].mode == Normal) && 0 <= i < p.joints
    ensures |ins[0].q| == p.joints && Gets(p, ms[t].cmd, i, 0.0, Is(ins[0].q[i]), p.pdKp[i], p.pdKd[i])
  {
    hide Tick;
    HoldsMeasuredPose(p, ms, ins, t);
    assert InputFits(p, ins[0]) && MachineFits(p, ms[0]);
  }

  lemma RampJoint(
    p: Params, targets: seq<Number>, tau: seq<real>, kp: seq<real>, kd: seq<real>, i: int)
    requires |targets| == |tau| == |kp| == |kd| == p.joints && 0 <= i < p.joints
    ensures var c := RampCmd(p.wheels, targets, tau, kp, kd);
      if i in p.wheels then Gets(p, c, i, 0.0, Is(0.0), 0.0, kd[i]) else Gets(p, c, i, tau[i], targets[i], kp[i], kd[i])
  {
  }

  /**
   A lie-down drives every joint along its ramp with its own gains and no torque, and only damps wheels.
   */
  lemma LieDownJoint(p: Params, ms: seq<Machine>, ins: seq<Input>, s: TransformDown.State, t: nat, i: int)
    requires LieDownStretch(p, ms, ins, s) && 1 <= t <= ms[1].down.foldRamp + 101 && t < |ms| && 0 <= i < p.joints
    ensures s.Sized(p.joints)
    ensures if i in p.wheels then Gets(p, ms[t].cmd, i, 0.0, Is(0.0), 0.0, p.down.kd[i])
            else Gets(p, ms[t].cmd, i, 0.0, Mix(Weight(t - 1, s.foldRamp), s.initial[i], s.fold[i]), p.down.kp[i],
                      p.down.kd[i])
  {
    hide Tick, ScaledTicks, Ticks, ToInt, RampCmd, Gets;
    LieDownCommands(p, ms, ins, t);
    TransformDown.AfterClosed(s, t - 1);
    ToIntExact(t - 1);
    RampJoint(p, Setpoints(t - 1, s.foldRamp, s.initial, s.fold), Zeros(p.joints), p.down.kp, p.down.kd, i);
  }

  /** A stand-up moves the robot on run t: it was upright on entry and, once folded, at the end of the fold. */
  ghost predicate Moves(ins: seq<Input>, foldRamp: int, t: int)
    requires 1 <= t <= |ins| && 0 <= foldRamp
  {
    Turning.Tilt(ins[0].quat) <= 0.5 && (t > foldRamp + 1 ==> Turning.Tilt(ins[foldRamp].quat) <= 0.5)
  }

  /** Where run t of a moving stand-up drives joint i: along the fold ramp, then along the stand ramp. */
  function StandUpTarget(p: Params, s: TransformUp.State, t: int, i: int): Number
    requires p.Valid() && s.Sized(p.joints) && 0 <= i < p.joints
  {
    if t <= s.foldRamp + 1 then Mix(Weight(t - 1, s.foldRamp), s.initial[i], s.fold[i])
    else Mix(Weight(StandUpRuns.StandTick(t - s.foldRamp - 2), s.standRamp), s.fold[i], p.up.standPose[i])
  }

  lemma DrivenJoint(p: Params, s: TransformUp.State, c: int, n: int, ini: seq<real>, fin: seq<real>, i: int)
    requires p.Valid() && s.Sized(p.joints) && s.flag != TransformUp.RollOver && |ini| == |fin| == p.joints
    requires TransformUp.Targets(p, s) == Setpoints(c, n, ini, fin) && 0 <= i < p.joints
    ensures if i in p.wheels then Gets(p, TransformUp.Commanded(p, s), i, 0.0, Is(0.0), 0.0, p.up.kd[i])
            else Gets(p, TransformUp.Commanded(p, s), i, p.up.torque[i], Mix(Weight(c, n), ini[i], fin[i]),
                      p.up.kp[i], p.up.kd[i])
  {
    RampJoint(p, Setpoints(c, n, ini, fin), p.up.torque, p.up.kp, p.up.kd, i);
    hide Weight, Mix, TransformUp.Targets, RampCmd, Gets;
  }

  /** The joint command of run |quats| + 1 of a stand-up that folds. */
  lemma FoldingJoint(p: Params, s: TransformUp.State, quats: seq<Orientation.Quat>, i: int)
    requires p.Valid() && s.Sized(p.joints) && StandUpRuns.Folding(s) && |quats| <= s.foldRamp && 0 <= i < p.joints
    ensures var c := TransformUp.Commanded(p, StandUpRuns.After(s, quats));
      if i in p.wheels then Gets(p, c, i, 0.0, Is(0.0), 0.0, p.up.kd[i])
      else Gets(p, c, i, p.up.torque[i], StandUpTarget(p, s, |quats| + 1, i), p.up.kp[i], p.up.kd[i])
  {
    StandUpRuns.AfterFlag(s, quats);
    StandUpRuns.FoldSetpoints(p, s, quats);
    hide StandUpRuns.After, TransformUp.Targets, TransformUp.Commanded, Setpoints, Weight, Mix, Gets, Params.Valid;
    DrivenJoint(p, StandUpRuns.After(s, quats), |quats|, s.foldRamp, s.initial, s.fold, i);
  }

  /** And of one that has folded and found the robot upright. */
  lemma StandingUpJoint(p: Params, s: TransformUp.State, quats: seq<Orientation.Quat>, i: int)
    requires p.Valid() && s.Sized(p.joints) && StandUpRuns.Folding(s) && 0 <= s.standRamp < I31
    requires s.foldRamp < |quats| < U64 && !TransformUp.UpsideDown(quats[s.foldRamp]) && 0 <= i < p.joints
    ensures var c := TransformUp.Commanded(p, StandUpRuns.After(s, quats));
      if i in p.wheels then Gets(p, c, i, 0.0, Is(0.0), 0.0, p.up.kd[i])
      else Gets(p, c, i, p.up.torque[i], StandUpTarget(p, s, |quats| + 1, i), p.up.kp[i], p.up.kd[i])
  {
    assert |p.up.standPose| == p.joints;
    StandUpRuns.AfterFlag(s, quats);
    var c := StandUpRuns.StandTargets(p, s, quats);
    assert |quats| + 1 - s.foldRamp - 2 == |quats| - s.foldRamp - 1;
    hide StandUpRuns.After, TransformUp.UpsideDown, TransformUp.Targets, TransformUp.Commanded, Setpoints, Weight, Mix,
      Gets, Params.Valid, StandUpRuns.StandTick;
    DrivenJoint(p, StandUpRuns.After(s, quats), c, s.standRamp, s.fold, p.up.standPose, i);
  }

  /**
   A stand-up drives every joint along both ramps with its torque and gains and only damps wheels, as long as
   the robot is upright where that is read; otherwise every entry of the command is zero.
   */
  lemma StandUpJointExact(p: Params, ms: seq<Machine>, ins: seq<Input>, s: TransformUp.State, t: nat, i: int)
    requires StandUpStretch(p, ms, ins) && s == Begun(p, ms[0], ins[0])
    requires 0 <= s.foldRamp < I31 && 0 <= s.standRamp < I31 && 1 <= t < |ms| && t <= U64 && 0 <= i < p.joints
    ensures p.Valid() && s.Sized(p.joints) && s.initial == ins[0].q
    ensures if !Moves(ins, s.foldRamp, t) then Gets(p, ms[t].cmd, i, 0.0, Is(0.0), 0.0, 0.0)
            else if i in p.wheels then Gets(p, ms[t].cmd, i, 0.0, Is(0.0), 0.0, p.up.kd[i])
            else Gets(p, ms[t].cmd, i, p.up.torque[i], StandUpTarget(p, s, t, i), p.up.kp[i], p.up.kd[i])
  {
    var quats := Orientations(ins);
    assert MachineFits(p, ms[0]) && InputFits(p, ins[0]);
    hide Tick, Begun, TransformUp.UpsideDown, StandUpRuns.After, Gets, StandUpTarget, Turning.Tilt;
    StandUpIs(p, ms, ins, t);
    TransformUp.TiltDecides(ins[0].quat);
    BegunFolding(p, ms[0], ins[0]);
    ZeroJoint(p, i);
    if Turning.Tilt(ins[0].quat) > 0.5 {
      UpsideDownSendsZero(p, ms, ins, t);
    } else if t > s.foldRamp + 1 && Turning.Tilt(ins[s.foldRamp].quat) > 0.5 {
      UpsideDownAtFoldSendsZero(p, ms, ins, s, t);
    } else {
      if t <= s.foldRamp + 1 {
        FoldingJoint(p, s, quats[..t - 1], i);
      } else {
        TransformUp.TiltDecides(ins[s.foldRamp].quat);
        assert quats[..t - 1][s.foldRamp] == ins[s.foldRamp].quat;
        StandingUpJoint(p, s, quats[..t - 1], i);
      }
    }
  }

  lemma ZeroJoint(p: Params, i: int)
    requires 0 <= i < p.joints
    ensures Gets(p, ZeroCmd(p.joints), i, 0.0, Is(0.0), 0.0, 0.0)
  {
  }
}

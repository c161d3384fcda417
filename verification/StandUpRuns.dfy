/**
 Whole stand-ups: the state and the setpoints of every run since entry, in closed form. Run r is
 the r-th since entry, the entry tick's own run being the first.
 */
module StandUpRuns {
  import Orientation
  import opened RobotControl
  import opened TransformUp
  import JointRamp

  /** The state after one run per orientation reading. */
  function After(s: State, quats: seq<Orientation.Quat>): (r: State)
    ensures |s.initial| == |s.fold| ==> |r.initial| == |r.fold| == |s.fold|
    decreases |quats|
  {
    if quats == [] then s
    else Advanced(After(s, quats[..|quats| - 1]), quats[|quats| - 1])
  }

  lemma AfterSized(s: State, quats: seq<Orientation.Quat>, n: nat)
    requires s.Sized(n)
    ensures After(s, quats).Sized(n)
  {
  }

  /** A state just entered with legs to fold. */
  ghost predicate Folding(s: State) {
    s.flag == FoldLegs && s.stateIter == 0 && s.motionStart == 0 && 0 <= s.foldRamp < I31
  }

  lemma EnteredFolding(p: Params, s: State, q: seq<real>, quat: Orientation.Quat)
    requires p.Valid() && |q| == |s.fold| == p.joints
    requires 0 <= Entered(p, s, q, quat).foldRamp < I31
    ensures Folding(Entered(p, s, q, quat)) <==> !UpsideDown(quat)
    ensures Entered(p, s, q, quat).Sized(p.joints) && Entered(p, s, q, quat).initial == q
  {
    hide UpsideDown, ScaledTicks, Ticks;
  }

  /** After r runs: still folding, or past the fold with the flag set by the orientation read at its end. */
  function ClosedForm(s: State, quats: seq<Orientation.Quat>): State
    requires Folding(s)
  {
    var r := |quats|;
    if r <= s.foldRamp then s.(stateIter := r)
    else s.(flag := if UpsideDown(quats[s.foldRamp]) then RollOver else StandUp, stateIter := Wrap64(r),
            motionStart := ToInt(Wrap64(s.foldRamp + 1)), initial := s.fold)
  }

  lemma {:induction false} AfterClosed(s: State, quats: seq<Orientation.Quat>)
    requires Folding(s)
    ensures After(s, quats) == ClosedForm(s, quats)
    decreases |quats|
  {
    if quats != [] {
      var r := |quats| - 1;
      AfterClosed(s, quats[..r]);
      hide UpsideDown;
      if r <= s.foldRamp {
        ToIntExact(r);
      } else {
        WrapSum(r, 1);
      }
    }
  }

  /** The phase after any number of runs. */
  lemma AfterFlag(s: State, quats: seq<Orientation.Quat>)
    requires Folding(s)
    ensures After(s, quats).flag ==
              if |quats| <= s.foldRamp then FoldLegs else if UpsideDown(quats[s.foldRamp]) then RollOver else StandUp
  {
    AfterClosed(s, quats);
    hide UpsideDown, After;
  }

  /** Entered upside down, the mode only counts. */
  lemma {:induction false} RollOverOnlyCounts(s: State, quats: seq<Orientation.Quat>)
    requires s.flag == RollOver && s.stateIter == 0
    ensures After(s, quats) == s.(stateIter := Wrap64(|quats|))
    decreases |quats|
  {
    if quats != [] {
      RollOverOnlyCounts(s, quats[..|quats| - 1]);
      WrapSum(|quats| - 1, 1);
    }
  }

  /** Whatever happens in between, the counter is the number of runs. */
  lemma {:induction false} CounterCounts(s: State, quats: seq<Orientation.Quat>)
    requires s.stateIter == 0
    ensures After(s, quats).stateIter == Wrap64(|quats|)
    ensures After(s, quats).foldRamp == s.foldRamp && After(s, quats).standRamp == s.standRamp
    decreases |quats|
  {
    if quats != [] {
      CounterCounts(s, quats[..|quats| - 1]);
      WrapSum(|quats| - 1, 1);
    }
  }

  /** Run |quats| + 1, made in the state after quats: the fold ramp at tick |quats|. */
  lemma FoldSetpoints(p: Params, s: State, quats: seq<Orientation.Quat>)
    requires p.Valid() && s.Sized(p.joints) && Folding(s) && |quats| <= s.foldRamp
    ensures Targets(p, After(s, quats)) == Setpoints(|quats|, s.foldRamp, s.initial, s.fold)
  {
    AfterClosed(s, quats);
    ToIntExact(|quats|);
  }

  /** From run foldRamp + 2 on: the stand ramp, its count modulo 2^32. */
  lemma StandSetpoints(p: Params, s: State, quats: seq<Orientation.Quat>)
    requires p.Valid() && s.Sized(p.joints) && Folding(s)
    requires s.foldRamp < |quats| < U64 && !UpsideDown(quats[s.foldRamp])
    ensures Targets(p, After(s, quats))
            == Setpoints(ToInt(|quats| - s.foldRamp - 1), s.standRamp, s.fold, p.up.standPose)
  {
    hide After, UpsideDown, Wrap64, ToInt, Setpoints, Params.Valid;
    AfterClosed(s, quats);
    PhaseAfterFold(|quats|, s.foldRamp);
    Wrap64Small(|quats|);
    Wrap64Small(s.foldRamp + 1);
  }

  lemma Wrap64Small(x: int)
    requires 0 <= x < U64
    ensures Wrap64(x) == x
  {
  }

  lemma PhaseAfterFold(r: int, f: int)
    requires 0 <= f < I31 && f < r < U64
    ensures ToInt(Wrap64(r - ToInt(Wrap64(f + 1)))) == ToInt(r - f - 1)
  {
    if f + 1 < I31 {
      ToIntExact(f + 1);
    } else {
      assert ToInt(f + 1) == f + 1 - U32;
      SameInt(r - f - 1, 1);
      WrapInt(r - f - 1 + U32);
    }
  }

  /**
   The stand ramp of a joint that is not a wheel: its tick is counted modulo 2^32, so it stays at the
   standing pose from its end until the count wraps and it starts again.
   */
  lemma StandingJoint(p: Params, s: State, quats: seq<Orientation.Quat>, i: int)
    requires p.Valid() && s.Sized(p.joints) && Folding(s) && 0 <= s.standRamp < I31
    requires s.foldRamp < |quats| < U64 && !UpsideDown(quats[s.foldRamp])
    requires 0 <= i < p.joints && i !in p.wheels
    ensures Commanded(p, After(s, quats)).qd[i]
            == Mix(Weight(StandTick(|quats| - s.foldRamp - 1), s.standRamp), s.fold[i], p.up.standPose[i])
    ensures s.foldRamp + s.standRamp < |quats| <= s.foldRamp + U32 && (s.standRamp >= 1 || |quats| > s.foldRamp + 1)
            ==> Commanded(p, After(s, quats)).qd[i] == Is(p.up.standPose[i])
    ensures s.standRamp == 0 && |quats| == s.foldRamp + 1 ==> Commanded(p, After(s, quats)).qd[i] == NaN
  {
    hide UpsideDown, Weight, Mix, ToInt, Wrap64, After, StandTick;
    StandSetpoints(p, s, quats);
    AfterClosed(s, quats);
    var (x, n) := (|quats| - s.foldRamp - 1, s.standRamp);
    CountWeight(x, n);
    JointRamp.MixIs(Is(1.0), s.fold[i], p.up.standPose[i]);
    JointRamp.MixStep(1.0, 0.0, s.fold[i], p.up.standPose[i]);
    JointRamp.MixUndefined(s.fold[i], p.up.standPose[i]);
  }

  /** The same setpoints, at a count whose weight is that of the stand tick. */
  lemma StandTargets(p: Params, s: State, quats: seq<Orientation.Quat>) returns (c: int)
    requires p.Valid() && s.Sized(p.joints) && Folding(s) && 0 <= s.standRamp < I31
    requires s.foldRamp < |quats| < U64 && !UpsideDown(quats[s.foldRamp])
    ensures Targets(p, After(s, quats)) == Setpoints(c, s.standRamp, s.fold, p.up.standPose)
    ensures Weight(c, s.standRamp) == Weight(StandTick(|quats| - s.foldRamp - 1), s.standRamp)
  {
    c := ToInt(|quats| - s.foldRamp - 1);
    StandSetpoints(p, s, quats);
    CountWeight(|quats| - s.foldRamp - 1, s.standRamp);
    hide *;
  }

  function StandTick(x: int): int {
    x % U32
  }

  lemma StandTickSmall(x: int)
    requires 0 <= x < U32
    ensures StandTick(x) == x
  {
  }

  lemma CountWeight(x: int, n: int)
    requires 0 <= n < I31 && 0 <= x
    ensures Weight(ToInt(x), n) == Weight(StandTick(x), n)
    ensures n <= x < U32 && (n >= 1 || x >= 1) ==> Weight(ToInt(x), n) == Is(1.0)
    ensures n == 0 && x == 0 ==> Weight(ToInt(x), n) == NaN
  {
    JointRamp.WeightEnds(ToInt(x), n);
    JointRamp.UndefinedIff(ToInt(x), n);
    if ToInt(x) < 0 {
      LargeWeight(x % U32, n);
    }
  }

  lemma LargeWeight(c: int, n: int)
    requires 0 <= n < I31 <= c < U64
    ensures Weight(c, n) == Is(1.0)
  {
  }

  /** The fold ends where the stand begins: run foldRamp + 1 and run foldRamp + 2 command the same pose. */
  lemma NoJump(p: Params, s: State, quats: seq<Orientation.Quat>, i: int)
    requires p.Valid() && s.Sized(p.joints) && Folding(s) && 1 <= s.foldRamp && 1 <= s.standRamp < I31
    requires |quats| == s.foldRamp + 1 && !UpsideDown(quats[s.foldRamp])
    requires 0 <= i < p.joints && i !in p.wheels
    ensures Commanded(p, After(s, quats[..s.foldRamp])).qd[i] == Commanded(p, After(s, quats)).qd[i] == Is(s.fold[i])
  {
    var f := s.foldRamp;
    AfterClosed(s, quats[..f]);
    AfterClosed(s, quats);
    FoldSetpoints(p, s, quats[..f]);
    StandSetpoints(p, s, quats);
    JointRamp.WeightEnds(f, f);
    JointRamp.WeightEnds(0, s.standRamp);
    hide UpsideDown, Weight, Mix;
    JointRamp.MixIs(Is(1.0), s.initial[i], s.fold[i]);
    JointRamp.MixIs(Is(0.0), s.fold[i], p.up.standPose[i]);
    JointRamp.MixStep(0.0, 0.0, s.initial[i], s.fold[i]);
    JointRamp.MixStep(0.0, 0.0, s.fold[i], p.up.standPose[i]);
  }

  /** The first run commands the measured pose, unless the ramp has length 0: then 0/0. */
  lemma FirstSetpoint(p: Params, s: State, i: int)
    requires p.Valid() && s.Sized(p.joints) && Folding(s) && 0 <= i < p.joints && i !in p.wheels
    ensures Commanded(p, s).qd[i] == if s.foldRamp == 0 then NaN else Is(s.initial[i])
  {
    ToIntExact(0);
    JointRamp.UndefinedIff(0, s.foldRamp);
    if s.foldRamp >= 1 {
      JointRamp.WeightEnds(0, s.foldRamp);
      hide Weight, Mix;
      JointRamp.MixIs(Is(0.0), s.initial[i], s.fold[i]);
      JointRamp.MixStep(0.0, 0.0, s.initial[i], s.fold[i]);
    }
  }

  /**
   On what a caller has, the measured pose and the configured ticks: the first command of an upright
   stand-up is 0/0 exactly if less than one tick's worth is to be moved.
   */
  lemma FirstCommandUndefinedIff(p: Params, s: State, q: seq<real>, quat: Orientation.Quat, i: int)
    requires p.Valid() && |q| == |s.fold| == p.joints && 0 <= i < p.joints && i !in p.wheels && !UpsideDown(quat)
    requires var (n, fold) := (Ticks(p.up.foldTimer, p.updateRate), Pinned(p.wheels, s.fold, q));
      n >= 0 && JointRamp.Reach(n, q, fold) < I31 as real
    ensures TransformUp.Entered(p, s, q, quat).Sized(p.joints)
    ensures Commanded(p, TransformUp.Entered(p, s, q, quat)).qd[i] == NaN
            <==> JointRamp.Reach(Ticks(p.up.foldTimer, p.updateRate), q, Pinned(p.wheels, s.fold, q)) < 1.0
  {
    hide ScaledTicks, Ticks, UpsideDown, Weight, Mix, JointRamp.Reach;
    var e := TransformUp.Entered(p, s, q, quat);
    JointRamp.EmptyIff(Ticks(p.up.foldTimer, p.updateRate), q, e.fold, I31);
    EnteredFolding(p, s, q, quat);
    FirstSetpoint(p, e, i);
  }

  /** A robot that already stands folded is one it happens to. */
  lemma FoldedUndefined(p: Params, s: State, q: seq<real>, quat: Orientation.Quat, i: int)
    requires p.Valid() && |q| == |s.fold| == p.joints && 0 <= i < p.joints && i !in p.wheels && !UpsideDown(quat)
    requires Ticks(p.up.foldTimer, p.updateRate) >= 0
    requires forall k :: 0 <= k < p.joints && k !in p.wheels ==> q[k] == s.fold[k]
    ensures TransformUp.Entered(p, s, q, quat).Sized(p.joints)
    ensures Commanded(p, TransformUp.Entered(p, s, q, quat)).qd[i] == NaN
  {
    hide UpsideDown;
    assert Pinned(p.wheels, s.fold, q) == q;
    JointRamp.AtPoseReachesNothing(Ticks(p.up.foldTimer, p.updateRate), q);
    FirstCommandUndefinedIff(p, s, q, quat, i);
  }
}

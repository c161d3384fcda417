/** The lie-down mode: fold the legs, hold the pose for 100 ticks, then hand over to idle. */
module TransformDown {
  import opened RobotControl
  import JointRamp

  const HOLD := 100

  datatype State = State(stateIter: int, initial: seq<real>, fold: seq<real>, foldRamp: int, finished: bool)
  {
    ghost predicate Sized(n: nat) {
      |initial| == |fold| == n
    }
  }

  // ----- Specification -----

  function Entered(p: Params, s: State, q: seq<real>): State
    requires p.Valid() && |q| == |s.fold| == p.joints
  {
    var fold := Pinned(p.wheels, s.fold, q);
    State(0, q, fold, ScaledTicks(Ticks(p.down.foldTimer, p.updateRate), q, fold), false)
  }

  function Advanced(s: State): State {
    s.(stateIter := Wrap64(s.stateIter + 1), finished := s.finished || ToInt(s.stateIter) >= s.foldRamp + HOLD)
  }

  function Commanded(p: Params, s: State): LowCmd
    requires p.Valid() && s.Sized(p.joints)
  {
    RampCmd(p.wheels, Setpoints(ToInt(s.stateIter), s.foldRamp, s.initial, s.fold), Zeros(p.joints), p.down.kp,
        p.down.kd)
  }

  function NextName(s: State): string {
    if s.finished then "idle" else "transform_down"
  }

  // ----- The state object -----

  class TransformDownState {
    const data: ControlData
    var stateIter: int
    var initialJpos: seq<real>
    var foldJpos: seq<real>
    var foldRampIter: int
    var transformFinish: bool

    ghost predicate Valid() reads this, data {
      data.Valid() && |foldJpos| == data.params.joints && 0 <= stateIter < U64
    }

    ghost function Value(): State reads this {
      State(stateIter, initialJpos, foldJpos, foldRampIter, transformFinish)
    }

    constructor (data: ControlData)
      requires data.Valid()
      ensures Valid() && this.data == data && Value().fold == data.params.down.foldPose && !Value().finished
    {
      this.data := data;
      foldJpos := data.params.down.foldPose;
      stateIter, initialJpos, foldRampIter, transformFinish := 0, [], 0, false;
    }

    method Enter()
      requires Valid()
      modifies this
      ensures Valid() && Value() == Entered(data.params, old(Value()), data.q)
    {
      hide Ticks, ScaledTicks;
      foldRampIter := Ticks(data.params.down.foldTimer, data.params.updateRate);
      stateIter := 0;
      transformFinish := false;
      initialJpos := data.q;
      foldJpos := data.PinWheels(foldJpos);
      foldRampIter := ScaledTicks(foldRampIter, initialJpos, foldJpos);
    }

    method FoldLegsStep(curr: int)
      requires Valid() && |initialJpos| == data.params.joints
      modifies data`cmd, this`transformFinish
      ensures data.cmd == RampCmd(data.params.wheels, Setpoints(curr, foldRampIter, initialJpos, foldJpos),
                                  Zeros(data.params.joints), data.params.down.kp, data.params.down.kd)
      ensures transformFinish == (old(transformFinish) || curr >= foldRampIter + HOLD)
    {
      var p := data.params.down;
      data.WriteRamp(Setpoints(curr, foldRampIter, initialJpos, foldJpos), Zeros(data.params.joints), p.kp, p.kd);
      if curr >= foldRampIter + HOLD {
        transformFinish := true;
      }
    }

    method Run()
      requires Valid() && |initialJpos| == data.params.joints
      modifies this, data`cmd
      ensures Valid() && Value() == Advanced(old(Value()))
      ensures data.cmd == Commanded(data.params, old(Value()))
    {
      data.cmd := ZeroCmd(data.params.joints);
      FoldLegsStep(ToInt(stateIter));
      stateIter := Wrap64(stateIter + 1);
    }

    method CheckTransition() returns (name: string)
      ensures name == NextName(Value())
    {
      name := "transform_down";
      if transformFinish {
        name := "idle";
      }
    }

    method Exit()
      modifies this`transformFinish
      ensures Value() == old(Value()).(finished := false)
    {
      transformFinish := false;
    }
  }

  // ----- Whole lie-downs -----

  /** The state after n runs. */
  function After(s: State, n: nat): State {
    if n == 0 then s else Advanced(After(s, n - 1))
  }

  /** Run n + 1 finds the counter at n, and the mode is finished from run foldRamp + 101 on. */
  lemma {:induction false} AfterClosed(s: State, n: nat)
    requires s.stateIter == 0 && !s.finished && 0 <= s.foldRamp < I31 - 100 && n <= s.foldRamp + 101
    ensures After(s, n) == s.(stateIter := n, finished := n == s.foldRamp + 101)
  {
    if n > 0 {
      AfterClosed(s, n - 1);
      ToIntExact(n - 1);
    }
  }

  /** Entering again keeps the configured fold pose at every joint that is not a wheel. */
  lemma EnteredKeepsPose(p: Params, s: State, q: seq<real>, i: int)
    requires p.Valid() && |q| == |s.fold| == p.joints && 0 <= i < p.joints && i !in p.wheels
    ensures Entered(p, s, q).fold[i] == s.fold[i]
  {
    hide ScaledTicks, Ticks;
  }

  /** Run n + 1 commands the fold ramp at n; once the ramp is done, to the last run, joints hold the fold pose. */
  lemma HoldsFoldPose(p: Params, s: State, n: nat, i: int)
    requires p.Valid() && s.Sized(p.joints) && s.stateIter == 0 && !s.finished
    requires 0 <= s.foldRamp < I31 - HOLD && n <= s.foldRamp + HOLD
    requires 0 <= i < p.joints && i !in p.wheels
    ensures After(s, n).Sized(p.joints)
    ensures Commanded(p, After(s, n)).qd[i] == Mix(Weight(n, s.foldRamp), s.initial[i], s.fold[i])
    ensures n == 0 ==> Commanded(p, After(s, n)).qd[i] == if s.foldRamp == 0 then NaN else Is(s.initial[i])
    ensures s.foldRamp <= n && n >= 1 ==> Commanded(p, After(s, n)).qd[i] == Is(s.fold[i])
  {
    hide Weight, Mix;
    AfterClosed(s, n);
    ToIntExact(n);
    JointRamp.WeightEnds(n, s.foldRamp);
    JointRamp.UndefinedIff(n, s.foldRamp);
    JointRamp.MixStep(0.0, 0.0, s.initial[i], s.fold[i]);
    JointRamp.MixIs(Is(1.0), s.initial[i], s.fold[i]);
    JointRamp.MixIs(Is(0.0), s.initial[i], s.fold[i]);
    JointRamp.MixUndefined(s.initial[i], s.fold[i]);
  }

  /**
   On what a caller has, the measured pose and the configured ticks: the first command of a lie-down
   is 0/0 exactly if less than one tick's worth is to be moved.
   */
  lemma FirstCommandUndefinedIff(p: Params, s: State, q: seq<real>, i: int)
    requires p.Valid() && |q| == |s.fold| == p.joints && 0 <= i < p.joints && i !in p.wheels
    requires var (n, fold) := (Ticks(p.down.foldTimer, p.updateRate), Pinned(p.wheels, s.fold, q));
      n >= 0 && JointRamp.Reach(n, q, fold) < (I31 - HOLD) as real
    ensures Entered(p, s, q).Sized(p.joints)
    ensures Commanded(p, Entered(p, s, q)).qd[i] == NaN
            <==> JointRamp.Reach(Ticks(p.down.foldTimer, p.updateRate), q, Pinned(p.wheels, s.fold, q)) < 1.0
  {
    hide ScaledTicks, Ticks, Weight, Mix, JointRamp.Reach;
    var e := Entered(p, s, q);
    JointRamp.EmptyIff(Ticks(p.down.foldTimer, p.updateRate), q, e.fold, I31 - HOLD);
    assert After(e, 0) == e;
    HoldsFoldPose(p, e, 0, i);
  }

  /** A robot that already lies folded is one it happens to. */
  lemma FoldedUndefined(p: Params, s: State, q: seq<real>, i: int)
    requires p.Valid() && |q| == |s.fold| == p.joints && 0 <= i < p.joints && i !in p.wheels
    requires Ticks(p.down.foldTimer, p.updateRate) >= 0
    requires forall k :: 0 <= k < p.joints && k !in p.wheels ==> q[k] == s.fold[k]
    ensures Entered(p, s, q).Sized(p.joints) && Commanded(p, Entered(p, s, q)).qd[i] == NaN
  {
    assert Pinned(p.wheels, s.fold, q) == q;
    JointRamp.AtPoseReachesNothing(Ticks(p.down.foldTimer, p.updateRate), q);
    FirstCommandUndefinedIff(p, s, q, i);
  }
}

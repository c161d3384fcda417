/**
 The stand-up mode: fold the legs from wherever they are, then ramp to the standing pose, and let
 the operator leave only when both ramps are long done.
 */
module TransformUp {
  import Orientation
  import Turning
  import opened RobotControl

  datatype Flag = StandUp | FoldLegs | RollOver

  datatype State = State(
    flag: Flag, stateIter: int, motionStart: int, initial: seq<real>, fold: seq<real>, foldRamp: int, standRamp: int)
  {
    ghost predicate Sized(n: nat) {
      |initial| == |fold| == n
    }
  }

  function UpsideDown(quat: Orientation.Quat): bool {
    Orientation.QuaternionToRotationMatrix(quat).m22 < 0.0
  }

  // ----- Specification -----

  function Entered(p: Params, s: State, q: seq<real>, quat: Orientation.Quat): State
    requires p.Valid() && |q| == |s.fold| == p.joints
  {
    var fold := Pinned(p.wheels, s.fold, q);
    State(
      if UpsideDown(quat) then RollOver else FoldLegs, 0, 0, q, fold,
      ScaledTicks(Ticks(p.up.foldTimer, p.updateRate), q, fold), Ticks(p.up.standTimer, p.updateRate))
  }

  /** The count a phase sees: ticks since it began, through a cast to int. */
  function Phase(s: State): int {
    ToInt(Wrap64(s.stateIter - s.motionStart))
  }

  function FoldDone(s: State): bool {
    s.flag == FoldLegs && Phase(s) >= s.foldRamp
  }

  function Advanced(s: State, quat: Orientation.Quat): State {
    if FoldDone(s) then
      s.(flag := if UpsideDown(quat) then RollOver else StandUp, initial := s.fold,
         motionStart := ToInt(Wrap64(s.stateIter + 1)), stateIter := Wrap64(s.stateIter + 1))
    else s.(stateIter := Wrap64(s.stateIter + 1))
  }

  /** The setpoints of the run made in this state, wheels not yet overridden. */
  function Targets(p: Params, s: State): seq<Number>
    requires p.Valid() && s.Sized(p.joints)
  {
    match s.flag
    case FoldLegs => Setpoints(Phase(s), s.foldRamp, s.initial, s.fold)
    case StandUp => Setpoints(Phase(s), s.standRamp, s.initial, p.up.standPose)
    case RollOver => seq(p.joints, i => Is(0.0))
  }

  function Commanded(p: Params, s: State): LowCmd
    requires p.Valid() && s.Sized(p.joints)
  {
    if s.flag == RollOver then ZeroCmd(p.joints)
    else RampCmd(p.wheels, Targets(p, s), p.up.torque, p.up.kp, p.up.kd)
  }

  /** May the operator leave? The difference wraps at 64 bits and is cast to int. */
  function GateOpen(stateIter: int, foldRamp: int, standRamp: int): bool {
    ToInt(Wrap64(Wrap64(stateIter - foldRamp) - standRamp)) >= 100
  }

  function NextName(p: Params, s: State, command: Command): string {
    if !GateOpen(s.stateIter, s.foldRamp, s.standRamp) then "transform_up"
    else
      match command
      case DesiredJointPD => "joint_pd"
      case DesiredRl(number) => PolicyName(p, number, "transform_up")
      case DesiredDown => "transform_down"
      case _ => "transform_up"
  }

  // ----- The state object -----

  class TransformUpState {
    const data: ControlData
    var flag: Flag
    var stateIter: int
    var motionStart: int
    var initialJpos: seq<real>
    var foldJpos: seq<real>
    var foldRampIter: int
    var standupRampIter: int

    ghost predicate Valid() reads this, data {
      data.Valid() && |foldJpos| == data.params.joints && 0 <= stateIter < U64 && -I31 <= motionStart < I31
    }

    ghost function Value(): State reads this {
      State(flag, stateIter, motionStart, initialJpos, foldJpos, foldRampIter, standupRampIter)
    }

    constructor (data: ControlData)
      requires data.Valid()
      ensures Valid() && this.data == data && Value().fold == data.params.up.foldPose
    {
      this.data := data;
      flag, stateIter, motionStart := FoldLegs, 0, 0;
      foldJpos := data.params.up.foldPose;
      initialJpos, foldRampIter, standupRampIter := [], 0, 0;
    }

    method Enter()
      requires Valid()
      modifies this
      ensures Valid() && Value() == Entered(data.params, old(Value()), data.q, data.quat)
    {
      hide Ticks, ScaledTicks, UpsideDown;
      var p := data.params;
      foldRampIter := Ticks(p.up.foldTimer, p.updateRate);
      standupRampIter := Ticks(p.up.standTimer, p.updateRate);
      stateIter := 0;
      initialJpos := data.q;
      foldJpos := data.PinWheels(foldJpos);
      foldRampIter := ScaledTicks(foldRampIter, initialJpos, foldJpos);
      flag := FoldLegs;
      if UpsideDown(data.quat) {
        flag := RollOver;
      }
      motionStart := 0;
    }

    method StandUpStep(curr: int)
      requires Valid() && |initialJpos| == data.params.joints
      modifies data`cmd
      ensures var p := data.params;
        data.cmd == RampCmd(p.wheels, Setpoints(curr, standupRampIter, initialJpos, p.up.standPose), p.up.torque,
                            p.up.kp, p.up.kd)
    {
      var p := data.params.up;
      data.WriteRamp(Setpoints(curr, standupRampIter, initialJpos, p.standPose), p.torque, p.kp, p.kd);
    }

    method FoldLegsStep(curr: int)
      requires Valid() && |initialJpos| == data.params.joints
      modifies data`cmd, this`flag, this`initialJpos, this`motionStart
      ensures Valid()
      ensures var p := data.params;
        data.cmd == RampCmd(p.wheels, Setpoints(curr, foldRampIter, old(initialJpos), foldJpos), p.up.torque,
                            p.up.kp, p.up.kd)
      ensures curr < foldRampIter ==> unchanged(this)
      ensures curr >= foldRampIter ==>
        flag == (if UpsideDown(data.quat) then RollOver else StandUp) && initialJpos == foldJpos
        && motionStart == ToInt(Wrap64(stateIter + 1))
    {
      var p := data.params.up;
      data.WriteRamp(Setpoints(curr, foldRampIter, initialJpos, foldJpos), p.torque, p.kp, p.kd);
      if curr >= foldRampIter {
        if UpsideDown(data.quat) {
          flag := RollOver;
          initialJpos := foldJpos;
        } else {
          flag := StandUp;
          initialJpos := foldJpos;
        }
        motionStart := ToInt(Wrap64(stateIter + 1));
      }
    }

    method Run()
      requires Valid() && |initialJpos| == data.params.joints
      modifies this, data`cmd
      ensures Valid() && Value() == Advanced(old(Value()), data.quat)
      ensures data.cmd == Commanded(data.params, old(Value()))
    {
      data.cmd := ZeroCmd(data.params.joints);
      match flag {
        case StandUp => StandUpStep(ToInt(Wrap64(stateIter - motionStart)));
        case FoldLegs => FoldLegsStep(ToInt(Wrap64(stateIter - motionStart)));
        case RollOver =>
      }
      stateIter := Wrap64(stateIter + 1);
    }

    method CheckTransition() returns (name: string)
      requires Valid()
      ensures name == NextName(data.params, Value(), data.command)
    {
      name := "transform_up";
      match data.command {
        case DesiredJointPD =>
          if GateOpen(stateIter, foldRampIter, standupRampIter) {
            name := "joint_pd";
          }
        case DesiredRl(number) =>
          if GateOpen(stateIter, foldRampIter, standupRampIter) {
            name := PolicyName(data.params, number, name);
          }
        case DesiredDown =>
          if GateOpen(stateIter, foldRampIter, standupRampIter) {
            name := "transform_down";
          }
        case _ =>
      }
    }
  }

  // ----- When the robot counts as upside down -----

  /**
   Exactly when the two horizontal components of the quaternion outweigh 1/2; for a unit quaternion that is
   when the body's vertical axis, turned into the world, points down.
   */
  lemma UpsideDownIff(quat: Orientation.Quat)
    ensures UpsideDown(quat) <==> quat.x * quat.x + quat.y * quat.y > 0.5
    ensures Orientation.Unit(quat) ==> (UpsideDown(quat) <==> Turning.Turned(quat, Turning.UP).z < 0.0)
  {
    Turning.VerticalAxis(quat);
    hide Orientation.QuaternionToRotationMatrix, Turning.Turned, Orientation.Unit;
  }

  lemma TiltDecides(quat: Orientation.Quat)
    ensures UpsideDown(quat) <==> Turning.Tilt(quat) > 0.5
  {
    Turning.VerticalAxis(quat);
    hide Orientation.QuaternionToRotationMatrix, Turning.Turned, Turning.Tilt, Orientation.Unit;
  }

  // ----- The exit gate -----

  /** Run r's distance past both ramps, modulo 2^32, is from 100 up to what a signed int can hold. */
  predicate Due(r: int, foldRamp: int, standRamp: int) {
    100 <= (r - foldRamp - standRamp) % U32 < I31
  }

  /** What the wraps and the cast amount to, for every count and all ramps. */
  lemma GateExact(r: int, foldRamp: int, standRamp: int)
    ensures GateOpen(Wrap64(r), foldRamp, standRamp) <==> Due(r, foldRamp, standRamp)
  {
    WrapSum(r, -foldRamp);
    WrapTwice(r - foldRamp, standRamp);
    WrapInt(r - foldRamp - standRamp);
  }

  /** While the difference stays an int, the casts change nothing. */
  lemma GateIsPlain(r: int, foldRamp: int, standRamp: int)
    requires -I31 <= r - foldRamp - standRamp < I31
    ensures GateOpen(Wrap64(r), foldRamp, standRamp) <==> r >= foldRamp + standRamp + 100
  {
    GateExact(r, foldRamp, standRamp);
    PlainIff(r, foldRamp, standRamp);
  }

  /**
   Up to one turn of the 32-bit count either way, the gate says what the plain comparison does exactly
   while the difference stays an int, or lies in the 100 runs before the turn.
   */
  lemma PlainIff(r: int, foldRamp: int, standRamp: int)
    requires -U32 <= r - foldRamp - standRamp < U32
    ensures (Due(r, foldRamp, standRamp) <==> r >= foldRamp + standRamp + 100)
            <==> -I31 <= r - foldRamp - standRamp < I31 || r - foldRamp - standRamp < 100 - U32
  {
    var x := r - foldRamp - standRamp;
    assert x % U32 == if x < 0 then x + U32 else x;
  }

  /** The first check comes after the second run. The gate never opens early exactly if both ramps together fit. */
  lemma NeverEarlyIff(foldRamp: int, standRamp: int)
    requires 0 <= foldRamp < I31 && 0 <= standRamp < I31
    ensures (forall r :: 2 <= r && GateOpen(Wrap64(r), foldRamp, standRamp) ==> r >= foldRamp + standRamp + 100)
            <==> foldRamp + standRamp <= I31 + 2
  {
    var sum := foldRamp + standRamp;
    if sum <= I31 + 2 {
      forall r | 2 <= r && GateOpen(Wrap64(r), foldRamp, standRamp)
        ensures r >= sum + 100
      {
        if r < sum + 100 {
          GateIsPlain(r, foldRamp, standRamp);
        }
      }
    } else {
      var r := if sum <= U32 - 98 then 2 else 100;
      GateExact(r, foldRamp, standRamp);
      PlainIff(r, foldRamp, standRamp);
    }
  }

  /** The gate shuts again 2^31 runs past both ramps, and stays shut for 2^31 + 100 runs before it reopens. */
  lemma GateShutsAgain(r: int, foldRamp: int, standRamp: int)
    requires foldRamp + standRamp + 100 <= r <= foldRamp + standRamp + U32 + 100
    ensures GateOpen(Wrap64(r), foldRamp, standRamp)
            <==> r < foldRamp + standRamp + I31 || r == foldRamp + standRamp + U32 + 100
  {
    GateExact(r, foldRamp, standRamp);
    var x := r - foldRamp - standRamp;
    assert x % U32 == if x < U32 then x else x - U32;
  }

  /** With no ramps at all, the count at which it does. */
  lemma ShutAtTwoToThe31()
    ensures GateOpen(I31 - 1, 0, 0) && !GateOpen(I31, 0, 0)
  {
    GateShutsAgain(I31 - 1, 0, 0);
    GateShutsAgain(I31, 0, 0);
  }

  /** From the first check on, the gate opens some time, whatever the ramps. */
  lemma OpensSometime(foldRamp: int, standRamp: int) returns (n: nat)
    ensures n >= 2 && Due(n, foldRamp, standRamp) && forall r :: 2 <= r < n ==> !Due(r, foldRamp, standRamp)
  {
    var late := 2 + (foldRamp + standRamp + 98) % U32;
    LateIsDue(late, foldRamp, standRamp);
    n := 2;
    while !Due(n, foldRamp, standRamp)
      invariant 2 <= n <= late && forall r :: 2 <= r < n ==> !Due(r, foldRamp, standRamp)
      decreases late - n
    {
      n := n + 1;
    }
  }

  lemma LateIsDue(late: int, foldRamp: int, standRamp: int)
    requires late == 2 + (foldRamp + standRamp + 98) % U32
    ensures Due(late, foldRamp, standRamp)
  {
    var sum := foldRamp + standRamp + 98;
    assert late - foldRamp - standRamp == 100 - sum / U32 * U32;
  }
}

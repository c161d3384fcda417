/**
 What the robot's mode states share: the command buffer, the parameters, the joint ramp and the
 integer widths of its counters.
 */
module RobotControl {
  import Orientation

  /** A floating-point number: 0/0 is the one way the ramps can leave the reals. */
  datatype Number = NaN | Is(value: real)

  /** What the operator last asked for. `DesiredRl` carries the number after "rl_", if there is one. */
  datatype Command =
    DesiredIdle | DesiredJointPD | DesiredUp | DesiredDown | DesiredRl(number: Option) | DesiredOther

  datatype Option = None | Some(value: int)

  datatype LowCmd = LowCmd(tau: seq<real>, qd: seq<Number>, qdDot: seq<real>, kp: seq<real>, kd: seq<real>)

  datatype UpParams = UpParams(
    foldPose: seq<real>, standPose: seq<real>, torque: seq<real>, kp: seq<real>, kd: seq<real>,
    foldTimer: real, standTimer: real)

  datatype DownParams = DownParams(foldPose: seq<real>, kp: seq<real>, kd: seq<real>, foldTimer: real)

  datatype Params = Params(
    joints: nat, wheels: seq<nat>, updateRate: int, up: UpParams, down: DownParams,
    pdKp: seq<real>, pdKd: seq<real>, policies: seq<string>)
  {
    /** Every joint vector has the robot's size and the wheels are joints. */
    ghost predicate Valid() {
      joints >= 1 && (forall k :: 0 <= k < |wheels| ==> wheels[k] < joints)
      && |up.foldPose| == |up.standPose| == |up.torque| == |up.kp| == |up.kd| == joints
      && |down.foldPose| == |down.kp| == |down.kd| == joints && |pdKp| == |pdKd| == joints
    }
  }

  function Zeros(n: nat): seq<real> {
    seq(n, i => 0.0)
  }

  function ZeroCmd(n: nat): LowCmd {
    LowCmd(Zeros(n), seq(n, i => Is(0.0)), Zeros(n), Zeros(n), Zeros(n))
  }

  // ----- Integer widths -----

  const U64 := 0x1_0000_0000_0000_0000
  const U32 := 0x1_0000_0000
  const I31 := 0x8000_0000

  /** A 64-bit unsigned value. */
  function Wrap64(x: int): (r: nat)
    ensures r < U64
    ensures 0 <= x < U64 ==> r == x
  {
    x % U64
  }

  /** The cast of a 64-bit unsigned value to int keeps the low 32 bits, read as a signed number. */
  function ToInt(x: int): (r: int)
    ensures -I31 <= r < I31 && (r - x) % U32 == 0
  {
    if x % U32 < I31 then x % U32 else x % U32 - U32
  }

  lemma ToIntExact(x: int)
    requires -I31 <= x < I31
    ensures ToInt(x) == ToInt(Wrap64(x)) == x
  {
    if x < 0 {
      assert x % U64 == x + U64;
    }
  }

  lemma SameWrap(x: int, k: int)
    ensures Wrap64(x + k * U64) == Wrap64(x)
  {
  }

  lemma WrapTwice(x: int, y: int)
    ensures Wrap64(Wrap64(x) - y) == Wrap64(x - y)
  {
    assert Wrap64(x) == x - x / U64 * U64;
    SameWrap(x - y, -(x / U64));
  }

  lemma WrapSum(r: int, k: int)
    ensures Wrap64(Wrap64(r) + k) == Wrap64(r + k)
  {
    WrapTwice(r, -k);
  }

  lemma SameInt(x: int, k: int)
    ensures ToInt(x + k * U32) == ToInt(x)
  {
  }

  lemma WrapInt(x: int)
    ensures ToInt(Wrap64(x)) == ToInt(x)
  {
    assert x % U64 == x - x / U64 * U64;
    SameInt(x, -(x / U64) * U32);
  }

  /** The conversion of a real to int drops the fraction. */
  function Trunc(x: real): int {
    if x >= 0.0 then x.Floor else -(-x).Floor
  }

  // ----- The joint ramp -----

  /** The weight of the final pose. Both counts are converted to 64-bit unsigned first. */
  function Weight(curr: int, max: int): Number {
    var (c, n) := (Wrap64(curr), Wrap64(max));
    if c > n then Is(1.0) else if n == 0 then NaN else Is(c as real / n as real)
  }

  function Mix(w: Number, ini: real, fin: real): Number {
    match w
    case NaN => NaN
    case Is(b) => Is((1.0 - b) * ini + b * fin)
  }

  function Setpoints(curr: int, max: int, ini: seq<real>, fin: seq<real>): seq<Number>
    requires |ini| == |fin|
  {
    seq(|ini|, i requires 0 <= i < |ini| => Mix(Weight(curr, max), ini[i], fin[i]))
  }

  /** The fold pose with the wheels left where they are. */
  function Pinned(wheels: seq<nat>, pose: seq<real>, q: seq<real>): seq<real>
    requires |pose| == |q|
  {
    seq(|q|, i requires 0 <= i < |q| => if i in wheels then q[i] else pose[i])
  }

  function Abs(x: real): real {
    if x < 0.0 then -x else x
  }

  /** The largest distance of any joint. */
  function MaxDistance(a: seq<real>, b: seq<real>): (m: real)
    requires |a| == |b| > 0
    ensures forall i :: 0 <= i < |a| ==> Abs(a[i] - b[i]) <= m
    ensures exists i :: 0 <= i < |a| && Abs(a[i] - b[i]) == m
  {
    if |a| == 1 then Abs(a[0] - b[0])
    else
      var m := MaxDistance(a[1..], b[1..]);
      assert forall i :: 1 <= i < |a| ==> a[i] == a[1..][i - 1] && b[i] == b[1..][i - 1];
      if Abs(a[0] - b[0]) >= m then Abs(a[0] - b[0])
      else
        var k :| 0 <= k < |a| - 1 && Abs(a[1..][k] - b[1..][k]) == m;
        assert Abs(a[k + 1] - b[k + 1]) == m;
        m
  }

  function Ticks(timer: real, rate: int): int {
    Trunc(timer * rate as real)
  }

  /** The configured ticks of a ramp, scaled by the largest distance. */
  function ScaledTicks(ticks: int, ini: seq<real>, fin: seq<real>): int
    requires |ini| == |fin| > 0
  {
    Trunc(ticks as real * MaxDistance(ini, fin))
  }

  /** A ramp command: wheels only damped, other joints driven to the setpoints. */
  function RampCmd(wheels: seq<nat>, qd: seq<Number>, tau: seq<real>, kp: seq<real>, kd: seq<real>): LowCmd
    requires |tau| == |kp| == |qd|
  {
    LowCmd(
      seq(|qd|, i requires 0 <= i < |qd| => if i in wheels then 0.0 else tau[i]),
      seq(|qd|, i requires 0 <= i < |qd| => if i in wheels then Is(0.0) else qd[i]),
      Zeros(|qd|),
      seq(|qd|, i requires 0 <= i < |qd| => if i in wheels then 0.0 else kp[i]),
      kd)
  }

  /** The state every mode shares: sensors and operator command in, joint command out. */
  class ControlData {
    const params: Params
    var q: seq<real>
    var quat: Orientation.Quat
    var command: Command
    var policyCmd: LowCmd
    var cmd: LowCmd

    ghost predicate Valid() reads this {
      params.Valid() && |q| == params.joints
    }

    constructor (params: Params, q: seq<real>, quat: Orientation.Quat, command: Command, policyCmd: LowCmd)
      requires params.Valid() && |q| == params.joints
      ensures Valid() && this.params == params && this.q == q && this.quat == quat
      ensures this.command == command && this.policyCmd == policyCmd && cmd == ZeroCmd(params.joints)
    {
      this.params := params;
      this.q, this.quat, this.command, this.policyCmd := q, quat, command, policyCmd;
      this.cmd := ZeroCmd(params.joints);
    }

    /** A pose with each wheel's entry overwritten by the joint's measured position. */
    method PinWheels(pose: seq<real>) returns (r: seq<real>)
      requires Valid() && |pose| == params.joints
      ensures r == Pinned(params.wheels, pose, q)
      ensures forall i :: 0 <= i < params.joints ==> r[i] == if i in params.wheels then q[i] else pose[i]
    {
      r := pose;
      for k := 0 to |params.wheels|
        invariant |r| == params.joints
        invariant forall i :: 0 <= i < params.joints ==> r[i] == if i in params.wheels[..k] then q[i] else pose[i]
      {
        r := r[params.wheels[k] := q[params.wheels[k]]];
      }
      assert params.wheels[..|params.wheels|] == params.wheels;
    }

    /** The command of a ramp: the setpoints, then the wheels overridden one by one. */
    method WriteRamp(targets: seq<Number>, torque: seq<real>, jointKp: seq<real>, jointKd: seq<real>)
      requires Valid() && |targets| == |torque| == |jointKp| == |jointKd| == params.joints
      modifies this`cmd
      ensures cmd == RampCmd(params.wheels, targets, torque, jointKp, jointKd)
    {
      var n := params.joints;
      cmd := LowCmd(torque, targets, Zeros(n), jointKp, jointKd);
      for k := 0 to |params.wheels|
        invariant |cmd.qd| == |cmd.qdDot| == |cmd.kp| == |cmd.kd| == |cmd.tau| == n
        invariant forall i :: 0 <= i < n ==> cmd.qd[i] == if i in params.wheels[..k] then Is(0.0) else targets[i]
        invariant forall i :: 0 <= i < n ==> cmd.tau[i] == if i in params.wheels[..k] then 0.0 else torque[i]
        invariant forall i :: 0 <= i < n ==> cmd.kp[i] == if i in params.wheels[..k] then 0.0 else jointKp[i]
        invariant cmd.qdDot == Zeros(n) && cmd.kd == jointKd
      {
        var w := params.wheels[k];
        cmd := LowCmd(cmd.tau[w := 0.0], cmd.qd[w := Is(0.0)], cmd.qdDot[w := 0.0], cmd.kp[w := 0.0],
            cmd.kd[w := jointKd[w]]);
      }
      assert params.wheels[..|params.wheels|] == params.wheels;
    }
  }

  function PolicyName(p: Params, number: Option, otherwise: string): string {
    if number.Some? && 0 <= number.value < |p.policies| then p.policies[number.value] else otherwise
  }
}

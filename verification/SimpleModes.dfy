/** The modes without counters: idle (damping only), holding the measured pose, and a policy's requests. */
module SimpleModes {
  import opened RobotControl

  // ----- Idle -----

  const IDLE_DAMPING := 5.0

  function IdleCmd(p: Params): LowCmd {
    var n := p.joints;
    LowCmd(Zeros(n), ZeroCmd(n).qd, Zeros(n), Zeros(n), seq(n, i => if i in p.wheels then 0.0 else IDLE_DAMPING))
  }

  function IdleNext(command: Command): string {
    match command
    case DesiredUp => "transform_up"
    case DesiredJointPD => "joint_pd"
    case _ => "idle"
  }

  class PassiveState {
    const data: ControlData

    constructor (data: ControlData)
      ensures this.data == data
    {
      this.data := data;
    }

    method Run()
      requires data.Valid()
      modifies data`cmd
      ensures data.cmd == IdleCmd(data.params)
    {
      var p := data.params;
      data.cmd := ZeroCmd(p.joints);
      var kd := data.cmd.kd;
      for i := 0 to |kd|
        invariant |kd| == p.joints && forall k :: 0 <= k < i ==> kd[k] == IDLE_DAMPING
      {
        kd := kd[i := IDLE_DAMPING];
      }
      for k := 0 to |p.wheels|
        invariant |kd| == p.joints
        invariant forall i :: 0 <= i < p.joints ==> kd[i] == if i in p.wheels[..k] then 0.0 else IDLE_DAMPING
      {
        kd := kd[p.wheels[k] := 0.0];
      }
      assert p.wheels[..|p.wheels|] == p.wheels;
      data.cmd := data.cmd.(kd := kd);
    }

    method CheckTransition() returns (name: string)
      ensures name == IdleNext(data.command)
    {
      name := "idle";
      if data.command == DesiredUp {
        name := "transform_up";
      } else if data.command == DesiredJointPD {
        name := "joint_pd";
      }
    }
  }

  // ----- Holding a pose -----

  function Numbers(pose: seq<real>): seq<Number> {
    seq(|pose|, i requires 0 <= i < |pose| => Is(pose[i]))
  }

  function HoldCmd(p: Params, pose: seq<real>): LowCmd {
    LowCmd(Zeros(p.joints), Numbers(pose), Zeros(p.joints), p.pdKp, p.pdKd)
  }

  function HoldNext(p: Params, command: Command): string {
    match command
    case DesiredRl(number) => PolicyName(p, number, "joint_pd")
    case DesiredIdle => "idle"
    case DesiredDown => "transform_down"
    case _ => "joint_pd"
  }

  class JointPDState {
    const data: ControlData
    var initialJpos: seq<real>

    constructor (data: ControlData)
      ensures this.data == data
    {
      this.data := data;
      initialJpos := [];
    }

    method Enter()
      modifies this
      ensures initialJpos == data.q
    {
      initialJpos := data.q;
    }

    method Run()
      requires data.Valid()
      modifies data`cmd
      ensures data.cmd == HoldCmd(data.params, initialJpos)
    {
      var n := data.params.joints;
      data.cmd := ZeroCmd(n);
      data.cmd := data.cmd.(qd := Numbers(initialJpos));
      data.cmd := data.cmd.(qdDot := Zeros(n), kp := data.params.pdKp, kd := data.params.pdKd, tau := Zeros(n));
    }

    method CheckTransition() returns (name: string)
      ensures name == HoldNext(data.params, data.command)
    {
      name := "joint_pd";
      if data.command.DesiredRl? {
        name := PolicyName(data.params, data.command.number, name);
      } else if data.command == DesiredIdle {
        name := "idle";
      } else if data.command == DesiredDown {
        name := "transform_down";
      }
    }
  }

  // ----- Policies -----

  function PolicyNext(p: Params, own: string, command: Command): string {
    match command
    case DesiredRl(number) => PolicyName(p, number, own)
    case DesiredDown => "transform_down"
    case _ => own
  }
}

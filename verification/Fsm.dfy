/**
 The two-phase dispatcher over the robot's modes: a normal tick runs the current mode and asks it
 for the next one; a change tick leaves, enters and runs.
 */
module Fsm {
  import Orientation
  import opened RobotControl
  import opened SimpleModes
  import TransformUp
  import TransformDown

  datatype Kind = Passive | JointPD | Up | Down | Rl(k: nat)

  datatype Mode = Normal | Change

  datatype Event = Entering(Kind) | Running(Kind) | Leaving(Kind)

  /** What one tick sees. `policyCmd` is whatever the current policy's run would write. */
  datatype Input = Input(q: seq<real>, quat: Orientation.Quat, command: Command, policyCmd: LowCmd)

  datatype Machine = Machine(
    current: Kind, next: Kind, mode: Mode,
    up: TransformUp.State, down: TransformDown.State, held: seq<real>, cmd: LowCmd)

  // ----- Names -----

  const BUILT_IN: map<string, Kind> :=
    map["idle" := Passive, "transform_up" := Up, "joint_pd" := JointPD, "transform_down" := Down]

  /** The map after the first n policies: inserting never overwrites. */
  function StateMap(names: seq<string>, n: nat): map<string, Kind>
    requires n <= |names|
  {
    if n == 0 then BUILT_IN
    else
      var m := StateMap(names, n - 1);
      if names[n - 1] in m then m else m[names[n - 1] := Rl(n - 1)]
  }

  function NextState(p: Params, name: string): Kind {
    var m := StateMap(p.policies, |p.policies|);
    if name in m then m[name] else Passive
  }

  /** The name a state object was built with. */
  function NameOf(p: Params, s: Kind): string {
    match s
    case Passive => "idle"
    case Up => "transform_up"
    case JointPD => "joint_pd"
    case Down => "transform_down"
    case Rl(k) => if k < |p.policies| then p.policies[k] else ""
  }

  // ----- One tick -----

  ghost predicate InputFits(p: Params, i: Input) {
    |i.q| == p.joints
  }

  ghost predicate MachineFits(p: Params, m: Machine) {
    p.Valid() && |m.up.fold| == |m.down.fold| == p.joints
    && (m.current == Up ==> m.up.Sized(p.joints)) && (m.current == Down ==> m.down.Sized(p.joints))
  }

  function EnterCurrent(p: Params, m: Machine, i: Input): Machine
    requires MachineFits(p, m.(current := Passive)) && InputFits(p, i)
    ensures MachineFits(p, EnterCurrent(p, m, i))
  {
    match m.current
    case Up => m.(up := TransformUp.Entered(p, m.up, i.q, i.quat))
    case Down => m.(down := TransformDown.Entered(p, m.down, i.q))
    case JointPD => m.(held := i.q)
    case _ => m
  }

  function RunCurrent(p: Params, m: Machine, i: Input): Machine
    requires MachineFits(p, m)
    ensures MachineFits(p, RunCurrent(p, m, i))
  {
    match m.current
    case Passive => m.(cmd := IdleCmd(p))
    case JointPD => m.(cmd := HoldCmd(p, m.held))
    case Up => m.(up := TransformUp.Advanced(m.up, i.quat), cmd := TransformUp.Commanded(p, m.up))
    case Down => m.(down := TransformDown.Advanced(m.down), cmd := TransformDown.Commanded(p, m.down))
    case Rl(_) => m.(cmd := i.policyCmd)
  }

  function Requested(p: Params, m: Machine, command: Command): string {
    match m.current
    case Passive => IdleNext(command)
    case JointPD => HoldNext(p, command)
    case Up => TransformUp.NextName(p, m.up, command)
    case Down => TransformDown.NextName(m.down)
    case Rl(_) => PolicyNext(p, NameOf(p, m.current), command)
  }

  function ExitCurrent(m: Machine): Machine {
    if m.current == Down then m.(down := m.down.(finished := false)) else m
  }

  function Tick(p: Params, m: Machine, i: Input): (r: Machine)
    requires MachineFits(p, m) && InputFits(p, i)
    ensures MachineFits(p, r)
  {
    match m.mode
    case Normal =>
      var ran := RunCurrent(p, m, i);
      var name := Requested(p, ran, i.command);
      if name != NameOf(p, ran.current) then ran.(mode := Change, next := NextState(p, name)) else ran
    case Change =>
      RunCurrent(p, EnterCurrent(p, ExitCurrent(m).(current := m.next), i).(mode := Normal), i)
  }

  /** What a tick does, in order. */
  function Events(m: Machine): seq<Event> {
    match m.mode
    case Normal => [Running(m.current)]
    case Change => [Leaving(m.current), Entering(m.next), Running(m.next)]
  }

  // ----- The dispatcher object -----

  class FsmController {
    const data: ControlData
    const passive: PassiveState
    const transformUp: TransformUp.TransformUpState
    const jointPD: JointPDState
    const transformDown: TransformDown.TransformDownState
    var stateMap: map<string, Kind>
    var currentState: Kind
    var nextState: Kind
    var mode: Mode
    ghost var log: seq<Event>

    ghost predicate Valid() reads this, data, transformUp, transformDown, jointPD {
      passive.data == transformUp.data == jointPD.data == transformDown.data == data
      && transformUp.Valid() && transformDown.Valid() && MachineFits(data.params, Value())
      && stateMap == StateMap(data.params.policies, |data.params.policies|)
    }

    ghost function Value(): Machine reads this, data, transformUp, transformDown, jointPD {
      Machine(currentState, nextState, mode, transformUp.Value(), transformDown.Value(), jointPD.initialJpos, data.cmd)
    }

    ghost function Seen(): Input reads data {
      Input(data.q, data.quat, data.command, data.policyCmd)
    }

    constructor (data: ControlData)
      requires data.Valid()
      ensures Valid() && this.data == data && Started(data.params, Value())
      ensures fresh(transformUp) && fresh(transformDown) && fresh(jointPD)
      ensures log == [Entering(Passive)]
    {
      this.data := data;
      passive := new PassiveState(data);
      transformUp := new TransformUp.TransformUpState(data);
      jointPD := new JointPDState(data);
      transformDown := new TransformDown.TransformDownState(data);
      var map_ := BUILT_IN;
      var names := data.params.policies;
      for i := 0 to |names|
        invariant map_ == StateMap(names, i)
      {
        if names[i] !in map_ {
          map_ := map_[names[i] := Rl(i)];
        }
      }
      stateMap := map_;
      currentState, nextState, mode, log := Passive, Passive, Normal, [];
      new;
      EnterState();
    }

    method GetNextState(name: string) returns (s: Kind)
      requires Valid()
      ensures s == NextState(data.params, name)
    {
      s := Passive;
      if name in stateMap {
        s := stateMap[name];
      }
    }

    /** Leaving the current mode; only lying down has anything to undo. */
    method ExitState()
      requires Valid()
      modifies transformDown, this`log
      ensures Valid() && Value() == ExitCurrent(old(Value())) && log == old(log) + [Leaving(currentState)]
    {
      if currentState == Down {
        transformDown.Exit();
      }
      log := log + [Leaving(currentState)];
    }

    method EnterState()
      requires passive.data == transformUp.data == jointPD.data == transformDown.data == data
      requires transformUp.Valid() && transformDown.Valid() && |data.q| == data.params.joints
      modifies transformUp, transformDown, jointPD, this`log
      ensures transformUp.Valid() && transformDown.Valid()
      ensures MachineFits(data.params, old(Value()).(current := Passive))
      ensures Value() == EnterCurrent(data.params, old(Value()), Seen())
      ensures log == old(log) + [Entering(currentState)]
    {
      match currentState {
        case Up => transformUp.Enter();
        case Down => transformDown.Enter();
        case JointPD => jointPD.Enter();
        case _ =>
      }
      log := log + [Entering(currentState)];
    }

    method RunState()
      requires Valid() && data.Valid()
      modifies transformUp, transformDown, data`cmd, this`log
      ensures Valid() && Value() == RunCurrent(data.params, old(Value()), Seen())
      ensures log == old(log) + [Running(currentState)]
    {
      hide StateMap, IdleCmd, HoldCmd, TransformUp.Commanded, TransformDown.Commanded;
      match currentState {
        case Passive => passive.Run();
        case JointPD => jointPD.Run();
        case Up => transformUp.Run();
        case Down => transformDown.Run();
        case Rl(_) => data.cmd := data.policyCmd;
      }
      log := log + [Running(currentState)];
    }

    method CheckTransition() returns (name: string)
      requires Valid()
      ensures name == Requested(data.params, Value(), data.command)
    {
      match currentState {
        case Passive => name := passive.CheckTransition();
        case JointPD => name := jointPD.CheckTransition();
        case Up => name := transformUp.CheckTransition();
        case Down => name := transformDown.CheckTransition();
        case Rl(_) => name := PolicyNext(data.params, NameOf(data.params, currentState), data.command);
      }
    }

    /** One tick. The log is written by the calls that act, and comes out as the tick's events. */
    method Run()
      requires Valid() && data.Valid()
      modifies this, transformUp, transformDown, jointPD, data`cmd
      ensures Valid() && Value() == Tick(data.params, old(Value()), Seen())
      ensures log == old(log) + Events(old(Value()))
    {
      hide EnterCurrent, RunCurrent, Requested, StateMap, NameOf, NextState;
      if mode == Normal {
        RunState();
        var name := CheckTransition();
        if name != NameOf(data.params, currentState) {
          mode := Change;
          nextState := GetNextState(name);
        }
      } else {
        ExitState();
        currentState := nextState;
        EnterState();
        mode := Normal;
        RunState();
      }
    }
  }

  /** Idle, entered, with nothing decided; the other modes have not been entered yet. */
  ghost predicate Started(p: Params, m: Machine) {
    m.current == m.next == Passive && m.mode == Normal && MachineFits(p, m)
    && m.up.fold == p.up.foldPose && m.down.fold == p.down.foldPose && !m.down.finished
  }
}

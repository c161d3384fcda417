/** What holds on every run of the dispatcher, whatever the operator asks for and the sensors read. */
module FsmRuns {
  import opened RobotControl
  import opened SimpleModes
  import opened Fsm
  import TransformUp
  import TransformDown

  // ----- Runs -----

  /** Consecutive ticks: tick t takes ms[t] to ms[t + 1], and runs the mode ms[t + 1].current. */
  ghost predicate Segment(p: Params, ms: seq<Machine>, ins: seq<Input>) {
    |ms| == |ins| + 1
    && (forall t :: 0 <= t < |ms| ==> MachineFits(p, ms[t])) && (forall t :: 0 <= t < |ins| ==> InputFits(p, ins[t]))
    && (forall t :: 0 <= t < |ins| ==> ms[t + 1] == Tick(p, ms[t], ins[t]))
  }

  function Trace(p: Params, m: Machine, ins: seq<Input>): (ms: seq<Machine>)
    requires MachineFits(p, m) && forall t :: 0 <= t < |ins| ==> InputFits(p, ins[t])
    ensures Segment(p, ms, ins) && ms[0] == m
    decreases |ins|
  {
    if ins == [] then [m]
    else
      assert ins[0] in ins && forall t :: 0 <= t < |ins| - 1 ==> ins[1..][t] == ins[t + 1];
      var rest := Trace(p, Tick(p, m, ins[0]), ins[1..]);
      assert forall t :: 1 <= t < |ins| ==> ([m] + rest)[t] == rest[t - 1] && ins[t] == ins[1..][t - 1];
      [m] + rest
  }

  lemma SegmentGrows(p: Params, ms: seq<Machine>, ins: seq<Input>, i: Input, m: Machine)
    requires Segment(p, ms, ins) && InputFits(p, i) && m == Tick(p, ms[|ins|], i)
    ensures Segment(p, ms + [m], ins + [i])
  {
    hide Tick, MachineFits, InputFits;
    var (ns, js) := (ms + [m], ins + [i]);
    assert MachineFits(p, m) by { assert MachineFits(p, ms[|ins|]); }
    forall t | 0 <= t < |js|
      ensures ns[t + 1] == Tick(p, ns[t], js[t])
    {
      assert t < |ins| ==> ns[t] == ms[t] && ns[t + 1] == ms[t + 1];
    }
  }

  /** One tick of the dispatcher object on fresh sensor and operator data. */
  method Feed(f: FsmController, i: Input)
    requires f.Valid() && InputFits(f.data.params, i)
    modifies f, f.data, f.transformUp, f.transformDown, f.jointPD
    ensures f.Valid() && f.data.Valid()
    ensures f.Value() == Tick(f.data.params, old(f.Value()), i) && f.log == old(f.log) + Events(old(f.Value()))
  {
    hide Tick, StateMap;
    f.data.q, f.data.quat, f.data.command, f.data.policyCmd := i.q, i.quat, i.command, i.policyCmd;
    assert f.Value() == old(f.Value()) && f.Seen() == i;
    f.Run();
  }

  /** The dispatcher object, fed any inputs tick by tick, goes through such a run and logs it. */
  method Drive(data: ControlData, ins: seq<Input>) returns (f: FsmController, ghost ms: seq<Machine>)
    requires data.Valid() && forall t :: 0 <= t < |ins| ==> InputFits(data.params, ins[t])
    modifies data
    ensures f.Valid() && f.data == data
    ensures Segment(data.params, ms, ins) && Started(data.params, ms[0])
    ensures f.Value() == ms[|ins|] && f.log == Log(ms)
  {
    hide InputFits, Tick, StateMap;
    f := new FsmController(data);
    ms := [f.Value()];
    for t := 0 to |ins|
      invariant f.Valid() && f.data == data && fresh(f) && fresh(f.transformUp) && fresh(f.transformDown)
              && fresh(f.jointPD)
      invariant Segment(data.params, ms, ins[..t]) && Started(data.params, ms[0])
      invariant f.Value() == ms[t] && f.log == Log(ms)
    {
      hide MachineFits, Started, FsmController.Valid;
      Feed(f, ins[t]);
      SegmentGrows(data.params, ms, ins[..t], ins[t], f.Value());
      assert ins[..t + 1] == ins[..t] + [ins[t]] && (ms + [f.Value()])[..t + 1] == ms;
      ms := ms + [f.Value()];
    }
    assert ins[..|ins|] == ins;
  }

  // ----- Names -----

  /** A name means the built-in mode, else the first policy so called. */
  lemma {:induction false} MapMeans(names: seq<string>, n: nat, name: string)
    requires n <= |names|
    ensures name in StateMap(names, n) <==> name in BUILT_IN || exists j :: 0 <= j < n && names[j] == name
    ensures name in BUILT_IN ==> StateMap(names, n)[name] == BUILT_IN[name]
    ensures name !in BUILT_IN && name in StateMap(names, n) ==>
      exists j :: 0 <= j < n && names[j] == name && StateMap(names, n)[name] == Rl(j)
          && forall i :: 0 <= i < j ==> names[i] != name
  {
    if n > 0 {
      MapMeans(names, n - 1, name);
    }
  }

  /** A policy's name leads to that policy's object exactly if no mode and no earlier policy has the name. */
  lemma PolicyResolvesIff(p: Params, k: nat)
    requires k < |p.policies|
    ensures NextState(p, p.policies[k]) == Rl(k) <==>
      p.policies[k] !in BUILT_IN && forall j :: 0 <= j < k ==> p.policies[j] != p.policies[k]
  {
    MapMeans(p.policies, |p.policies|, p.policies[k]);
  }

  /** Modes only ask for names the map has, so the lookup's fallback to idle is never taken. */
  lemma RequestsAreKnown(p: Params, m: Machine, command: Command)
    requires Requested(p, m, command) != NameOf(p, m.current)
    ensures Requested(p, m, command) in StateMap(p.policies, |p.policies|)
    ensures NameOf(p, NextState(p, Requested(p, m, command))) == Requested(p, m, command)
  {
    hide TransformUp.GateOpen;
    MapMeans(p.policies, |p.policies|, Requested(p, m, command));
  }

  /** No policy is called like a built-in mode. */
  ghost predicate PlainNames(p: Params) {
    forall k :: 0 <= k < |p.policies| ==> p.policies[k] !in BUILT_IN
  }

  /** Where a mode can lead, given plain names. */
  predicate MayFollow(s: Kind, t: Kind) {
    match s
    case Passive => t == Up || t == JointPD
    case JointPD => t == Passive || t == Down || t.Rl?
    case Up => t == JointPD || t == Down || t.Rl?
    case Down => t == Passive
    case Rl(_) => t == Down || t.Rl?
  }

  lemma RequestsFollow(p: Params, m: Machine, command: Command)
    requires PlainNames(p) && Requested(p, m, command) != NameOf(p, m.current)
    ensures MayFollow(m.current, NextState(p, Requested(p, m, command)))
  {
    hide TransformUp.GateOpen;
    MapMeans(p.policies, |p.policies|, Requested(p, m, command));
  }

  /** The policy can be entered under its own name. */
  predicate Runnable(p: Params, j: nat) {
    j < |p.policies| && NextState(p, p.policies[j]) == Rl(j)
  }

  /** No policy is called like one of the modes a policy must not lead to. */
  ghost predicate HarmlessNames(p: Params) {
    forall k :: 0 <= k < |p.policies| ==> p.policies[k] !in {"idle", "joint_pd", "transform_up"}
  }

  /** What policy j asks for on this command, if anything new, is a policy or lying down. */
  predicate LeadsSafely(p: Params, j: nat, command: Command) {
    var own := NameOf(p, Rl(j));
    var name := PolicyNext(p, own, command);
    name == own || NextState(p, name).Rl? || NextState(p, name) == Down
  }

  lemma HarmlessLeadsSafely(p: Params, j: nat, command: Command)
    requires HarmlessNames(p)
    ensures LeadsSafely(p, j, command)
  {
    MapMeans(p.policies, |p.policies|, PolicyNext(p, NameOf(p, Rl(j)), command));
  }

  /** Whichever policy runs: it leads only to policies and to lying down exactly if all names are harmless. */
  lemma PolicyLeadsSafelyIff(p: Params, j: nat)
    requires Runnable(p, j)
    ensures (forall command :: LeadsSafely(p, j, command)) <==> HarmlessNames(p)
  {
    if HarmlessNames(p) {
      forall command
        ensures LeadsSafely(p, j, command)
      {
        HarmlessLeadsSafely(p, j, command);
      }
    }
    if forall command :: LeadsSafely(p, j, command) {
      MapMeans(p.policies, |p.policies|, p.policies[j]);
      forall k | 0 <= k < |p.policies|
        ensures p.policies[k] !in {"idle", "joint_pd", "transform_up"}
      {
        assert LeadsSafely(p, j, DesiredRl(Some(k)));
        MapMeans(p.policies, |p.policies|, p.policies[k]);
      }
    }
  }

  // ----- The order of events -----

  function Log(ms: seq<Machine>): seq<Event> {
    if |ms| <= 1 then [Entering(Passive)] else Log(ms[..|ms| - 1]) + Events(ms[|ms| - 2])
  }

  datatype Stage = Inside(Kind) | Outside | Entered(Kind) | Broken

  /** enter(t), run(t) once or more, exit(t), and again. */
  function Follow(s: Stage, e: Event): Stage {
    match (s, e)
    case (Outside, Entering(k)) => Entered(k)
    case (Entered(k), Running(l)) => if k == l then Inside(k) else Broken
    case (Inside(k), Running(l)) => if k == l then s else Broken
    case (Inside(k), Leaving(l)) => if k == l then Outside else Broken
    case _ => Broken
  }

  function Parse(log: seq<Event>): Stage {
    if log == [] then Outside else Follow(Parse(log[..|log| - 1]), log[|log| - 1])
  }

  function Runs(log: seq<Event>): nat {
    if log == [] then 0 else Runs(log[..|log| - 1]) + if log[|log| - 1].Running? then 1 else 0
  }

  lemma ParseOne(log: seq<Event>, e: Event)
    ensures Parse(log + [e]) == Follow(Parse(log), e) && Runs(log + [e]) == Runs(log) + if e.Running? then 1 else 0
  {
    assert (log + [e])[..|log|] == log;
  }

  /** A normal tick's events keep the log inside the mode. */
  lemma ParseRun(log: seq<Event>, s: Kind)
    requires Parse(log) == Inside(s) || Parse(log) == Entered(s)
    ensures Parse(log + [Running(s)]) == Inside(s) && Runs(log + [Running(s)]) == Runs(log) + 1
  {
    ParseOne(log, Running(s));
  }

  /** A change tick's events move it from one mode to the next. */
  lemma ParseChange(log: seq<Event>, s: Kind, t: Kind)
    requires Parse(log) == Inside(s)
    ensures Parse(log + [Leaving(s), Entering(t), Running(t)]) == Inside(t)
    ensures Runs(log + [Leaving(s), Entering(t), Running(t)]) == Runs(log) + 1
  {
    var left := log + [Leaving(s)];
    var entered := left + [Entering(t)];
    ParseOne(log, Leaving(s));
    ParseOne(left, Entering(t));
    ParseOne(entered, Running(t));
    assert log + [Leaving(s), Entering(t), Running(t)] == entered + [Running(t)];
  }

  /** Every tick runs exactly one mode, and modes are entered before and left after all their runs. */
  lemma {:induction false} LogIsBracketed(p: Params, ms: seq<Machine>, ins: seq<Input>)
    requires Segment(p, ms, ins) && Started(p, ms[0])
    ensures Runs(Log(ms)) == |ins|
    ensures Parse(Log(ms)) == if ins == [] then Entered(Passive) else Inside(ms[|ins|].current)
    decreases |ins|
  {
    var n := |ins|;
    hide MachineFits, InputFits, Tick;
    if n == 0 {
      ParseOne([], Entering(Passive));
      assert [] + [Entering(Passive)] == [Entering(Passive)];
    } else {
      LogIsBracketed(p, ms[..n], ins[..n - 1]);
      var log, m := Log(ms[..n]), ms[n - 1];
      assert ms[n] == Tick(p, m, ins[n - 1]);
      TickKeepsCurrent(p, m, ins[n - 1]);
      hide Parse, Runs, Log;
      LogGrows(ms);
      if m.mode == Normal {
        ParseRun(log, m.current);
      } else {
        ParseChange(log, m.current, m.next);
      }
    }
  }

  lemma LogGrows(ms: seq<Machine>)
    requires |ms| >= 2
    ensures Log(ms) == Log(ms[..|ms| - 1]) + Events(ms[|ms| - 2])
  {
  }

  lemma TickKeepsCurrent(p: Params, m: Machine, i: Input)
    requires MachineFits(p, m) && InputFits(p, i)
    ensures Tick(p, m, i).current == if m.mode == Normal then m.current else m.next
    ensures m.mode == Change ==> Tick(p, m, i).mode == Normal
  {
    hide TransformUp.Advanced, TransformUp.Commanded, TransformUp.Entered, TransformDown.Advanced,
      TransformDown.Commanded, TransformDown.Entered, TransformUp.NextName, IdleCmd, HoldCmd, StateMap;
  }

  /**
   A change tick enters the mode chosen on the tick before, from what that tick's run left and the
   operator then asked.
   */
  lemma ChangeWasChosen(p: Params, ms: seq<Machine>, ins: seq<Input>, t: nat)
    requires Segment(p, ms, ins) && Started(p, ms[0]) && t < |ins| && ms[t].mode == Change
    ensures t >= 1 && ms[t - 1].mode == Normal && ms[t + 1].mode == Normal && ms[t + 1].current == ms[t].next
    ensures var ran := RunCurrent(p, ms[t - 1], ins[t - 1]);
      var name := Requested(p, ran, ins[t - 1].command);
      ran.current == ms[t].current && name != NameOf(p, ran.current) && ms[t].next == NextState(p, name)
  {
    TickKeepsCurrent(p, ms[t], ins[t]);
    assert ms[t + 1] == Tick(p, ms[t], ins[t]);
    if t >= 1 {
      assert ms[t] == Tick(p, ms[t - 1], ins[t - 1]);
      TickKeepsCurrent(p, ms[t - 1], ins[t - 1]);
    }
  }
}

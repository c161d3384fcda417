/**
 Handing a new model over from the physics thread to the render thread. Each thread is a program
 counter; a step is one locked block, or one write or call outside the lock. Any interleaving is a
 sequence of choices of which thread moves.
 */
module LoadHandshake {

  datatype Ref = Null | At(id: nat)

  function Ids(r: Ref): set<nat> {
    if r.At? then {r.id} else {}
  }

  // ----- What both threads see -----

  /** `request` is the load request: 3 announced, 2 published, 1 label shown, 0 nothing pending. */
  datatype Shared = Shared(request: int, model: Ref, data: Ref, newModel: Ref, newData: Ref)

  const ANNOUNCED := 3
  const PUBLISHED := 2
  const LABELLED := 1
  const CLEAR := 0

  /** The render loop's load step: one pass shows the label, the next adopts. */
  function LoadStep(s: Shared): Shared {
    if s.request == LABELLED then Adopt(s)
    else if s.request == PUBLISHED then s.(request := LABELLED)
    else s
  }

  function Adopt(s: Shared): Shared {
    Shared(CLEAR, s.newModel, s.newData, Null, Null)
  }

  class Simulate {
    var loadrequest: int
    var model: Ref
    var data: Ref
    var newModel: Ref
    var newData: Ref

    ghost function Value(): Shared reads this {
      Shared(loadrequest, model, data, newModel, newData)
    }

    constructor ()
      ensures Value() == Shared(CLEAR, Null, Null, Null, Null)
    {
      loadrequest, model, data, newModel, newData := CLEAR, Null, Null, Null, Null;
    }

    method LoadMessage()
      modifies this
      ensures Value() == old(Value()).(request := ANNOUNCED)
    {
      loadrequest := ANNOUNCED;
    }

    method LoadMessageClear()
      modifies this
      ensures Value() == old(Value()).(request := CLEAR)
    {
      loadrequest := CLEAR;
    }

    // Load, up to its wait: the two references are written before the lock is taken.

    method WriteModel(m: Ref)
      modifies this
      ensures Value() == old(Value()).(newModel := m)
    {
      newModel := m;
    }

    method WriteData(d: Ref)
      modifies this
      ensures Value() == old(Value()).(newData := d)
    {
      newData := d;
    }

    method Request()
      modifies this
      ensures Value() == old(Value()).(request := PUBLISHED)
    {
      loadrequest := PUBLISHED;
    }

    /** The condition Load waits for. */
    method Adopted() returns (done: bool)
      ensures done <==> Value().request == CLEAR
    {
      done := loadrequest == CLEAR;
    }

    method LoadOnRenderThread()
      modifies this
      ensures Value() == Adopt(old(Value()))
    {
      model := newModel;
      data := newData;
      loadrequest := CLEAR;
      newModel := Null;
      newData := Null;
    }

    method RenderLoadStep()
      modifies this
      ensures Value() == LoadStep(old(Value()))
    {
      if loadrequest == LABELLED {
        LoadOnRenderThread();
      } else if loadrequest == PUBLISHED {
        loadrequest := LABELLED;
      }
    }
  }

  // ----- Both threads -----

  /**
   Where the physics thread is. `first` tells the load of the command line's file from those of the
   loop; between the two the plugins are configured with the pair there then is.
   */
  datatype Physics =
    | Boot
    | Configuring
    | Loop
    | Loading(first: bool)
    | Making(first: bool, m: Ref)
    | Clearing(first: bool)
    | WritingModel(first: bool, m: Ref, d: Ref)
    | WritingData(first: bool, m: Ref, d: Ref)
    | Requesting(first: bool, m: Ref, d: Ref)
    | Waiting(first: bool, m: Ref, d: Ref)
    | DeletingData(m: Ref, d: Ref)
    | DeletingModel(m: Ref, d: Ref)
    | Replacing(m: Ref, d: Ref)
  {
    /** The physics thread holds the lock across steps only while it replaces the old pair. */
    predicate HoldsLock() {
      DeletingModel? || Replacing?
    }
  }

  datatype Render = Top | Drawing

  /**
   `m` and `d` are the physics thread's own pair, `pluginModel` and `pluginData` the one the control
   plugin keeps; `draws` counts frames drawn since the label was due, `reloads` completed loads of the loop.
   */
  datatype World = World(
    sim: Shared, m: Ref, d: Ref, pluginModel: Ref, pluginData: Ref,
    live: set<nat>, freed: set<nat>, leaked: set<nat>, next: nat,
    physics: Physics, render: Render, draws: nat, reloads: nat)

  /** Which thread moves; for the physics thread, whether the step's loading or allocation succeeds. */
  datatype Choice = PhysicsMoves(success: bool) | RenderMoves

  function Start(fileGiven: bool): World {
    World(
      Shared(CLEAR, Null, Null, Null, Null), Null, Null, Null, Null, {}, {}, {}, 0,
      if fileGiven then Boot else Configuring, Top, 0, 0)
  }

  function Free(w: World, r: Ref): World {
    if r.At? then w.(live := w.live - {r.id}, freed := w.freed + {r.id}) else w
  }

  function PhysicsStep(w: World, success: bool): World {
    match w.physics
    case Boot => w.(sim := w.sim.(request := ANNOUNCED), physics := Loading(true))
    case Configuring => w.(pluginModel := w.m, pluginData := w.d, physics := Loop)
    case Loop => w.(sim := w.sim.(request := ANNOUNCED), physics := Loading(false))
    case Loading(first) =>
      if !success then w.(physics := Clearing(first))
      else
        var m := At(w.next);
        var made := w.(live := w.live + {w.next}, next := w.next + 1, physics := Making(first, m));
        if first then made.(m := m) else made
    case Making(first, m) =>
      if success then
        var d := At(w.next);
        var made := w.(live := w.live + {w.next}, next := w.next + 1, physics := WritingModel(first, m, d));
        if first then made.(d := d) else made
      else if first then w.(physics := Clearing(true))
      else w.(physics := Clearing(false), leaked := w.leaked + Ids(m))
    case Clearing(first) => w.(sim := w.sim.(request := CLEAR), physics := if first then Configuring else Loop)
    case WritingModel(first, m, d) => w.(sim := w.sim.(newModel := m), physics := WritingData(first, m, d))
    case WritingData(first, m, d) => w.(sim := w.sim.(newData := d), physics := Requesting(first, m, d))
    case Requesting(first, m, d) => w.(sim := w.sim.(request := PUBLISHED), physics := Waiting(first, m, d))
    case Waiting(first, m, d) =>
      if w.sim.request != CLEAR then w
      else if first then w.(physics := Configuring)
      else w.(physics := DeletingData(m, d))
    case DeletingData(m, d) => Free(w, w.d).(physics := DeletingModel(m, d))
    case DeletingModel(m, d) => Free(w, w.m).(physics := Replacing(m, d))
    case Replacing(m, d) => w.(m := m, d := d, physics := Loop, reloads := w.reloads + 1)
  }

  function RenderStep(w: World): World {
    match w.render
    case Top =>
      if w.physics.HoldsLock() then w
      else w.(sim := LoadStep(w.sim), render := Drawing, draws := if w.sim.request == PUBLISHED then 0 else w.draws)
    case Drawing => w.(render := Top, draws := w.draws + 1)
  }

  function Step(w: World, c: Choice): World {
    match c
    case PhysicsMoves(success) => PhysicsStep(w, success)
    case RenderMoves => RenderStep(w)
  }

  function Run(w: World, cs: seq<Choice>): World
    decreases |cs|
  {
    if cs == [] then w else Step(Run(w, cs[..|cs| - 1]), cs[|cs| - 1])
  }

  // ----- The object under a schedule -----

  /** One move of the physics thread, on the object both threads share and on what only it sees. */
  method MovePhysics(sim: Simulate, w: World, success: bool) returns (r: World)
    requires sim.Value() == w.sim
    modifies sim
    ensures r == PhysicsStep(w, success) && sim.Value() == r.sim
  {
    var done := false;
    match w.physics {
      case Boot => sim.LoadMessage();
      case Loop => sim.LoadMessage();
      case Clearing(_) => sim.LoadMessageClear();
      case WritingModel(_, m, _) => sim.WriteModel(m);
      case WritingData(_, _, d) => sim.WriteData(d);
      case Requesting(_, _, _) => sim.Request();
      case Waiting(_, _, _) => done := sim.Adopted();
      case _ =>
    }
    r := if w.physics.Waiting? && !done then w else PhysicsStep(w, success);
  }

  /** One move of the render thread: its load step under the lock, or the frame drawn outside it. */
  method MoveRender(sim: Simulate, w: World) returns (r: World)
    requires sim.Value() == w.sim
    modifies sim
    ensures r == RenderStep(w) && sim.Value() == r.sim
  {
    if w.render == Top && !w.physics.HoldsLock() {
      sim.RenderLoadStep();
    }
    r := RenderStep(w);
  }

  /** The object, its methods called by any interleaving of the two threads, goes through that run. */
  method Follow(fileGiven: bool, cs: seq<Choice>) returns (sim: Simulate, w: World)
    ensures w == Run(Start(fileGiven), cs) && sim.Value() == w.sim
  {
    sim := new Simulate();
    w := Start(fileGiven);
    for n := 0 to |cs|
      invariant fresh(sim) && w == Run(Start(fileGiven), cs[..n]) && sim.Value() == w.sim
    {
      assert cs[..n + 1][..n] == cs[..n];
      match cs[n] {
        case PhysicsMoves(success) => w := MovePhysics(sim, w, success);
        case RenderMoves => w := MoveRender(sim, w);
      }
    }
    assert cs[..|cs|] == cs;
  }

  // ----- The invariant -----

  /** What the physics thread has allocated for the load under way, apart from its own pair. */
  function InHand(w: World): set<nat> {
    match w.physics
    case Making(first, m) => if first then {} else Ids(m)
    case WritingModel(first, m, d) => if first then {} else Ids(m) + Ids(d)
    case WritingData(first, m, d) => if first then {} else Ids(m) + Ids(d)
    case Requesting(first, m, d) => if first then {} else Ids(m) + Ids(d)
    case Waiting(first, m, d) => if first then {} else Ids(m) + Ids(d)
    case DeletingData(m, d) => Ids(m) + Ids(d)
    case DeletingModel(m, d) => Ids(m) + Ids(d)
    case Replacing(m, d) => Ids(m) + Ids(d)
    case _ => {}
  }

  /** What of the physics thread's own pair is not deleted yet. */
  function Own(w: World): set<nat> {
    match w.physics
    case DeletingModel(_, _) => Ids(w.m)
    case Replacing(_, _) => {}
    case _ => Ids(w.m) + Ids(w.d)
  }

  /** Every allocation is in exactly one place: owned, in hand, leaked, or freed. */
  ghost predicate Accounted(w: World) {
    w.live == Own(w) + InHand(w) + w.leaked
    && Own(w) !! InHand(w) && Own(w) !! w.leaked && InHand(w) !! w.leaked
    && w.live !! w.freed
    && (forall i :: i in w.live || i in w.freed <==> 0 <= i < w.next)
    && (w.m.At? && w.d.At? ==> w.m != w.d)
  }

  ghost predicate Pair(m: Ref, d: Ref) {
    m.At? && d.At? && m != d
  }

  /** The render thread holds the physics thread's own pair, or nothing yet. */
  ghost predicate HoldsOwn(w: World) {
    (w.sim.model == w.sim.data == Null) || (w.sim.model == w.m && w.sim.data == w.d && Pair(w.m, w.d))
  }

  ghost predicate Blank(w: World) {
    w.sim.newModel == w.sim.newData == Null
  }

  /** How far the hand-over is, seen from the physics thread. */
  ghost predicate InPhase(w: World) {
    match w.physics
    case Boot => w.sim.request == CLEAR && Blank(w) && HoldsOwn(w) && w.m == w.d == Null && w.sim.model == Null
    case Configuring => w.sim.request == CLEAR && Blank(w) && HoldsOwn(w)
    case Loop => w.sim.request == CLEAR && Blank(w) && HoldsOwn(w)
    case Loading(first) => w.sim.request == ANNOUNCED && Blank(w) && HoldsOwn(w)
      && (first ==> w.m == w.d == Null && w.sim.model == Null)
    case Making(first, m) => w.sim.request == ANNOUNCED && Blank(w) && HoldsOwn(w) && m.At?
      && (first ==> w.m == m && w.d == Null && w.sim.model == Null)
    case Clearing(_) => w.sim.request == ANNOUNCED && Blank(w) && HoldsOwn(w)
    case WritingModel(first, m, d) => w.sim.request == ANNOUNCED && Blank(w) && HoldsOwn(w) && Pair(m, d)
        && Named(w, first, m, d)
    case WritingData(first, m, d) => w.sim.request == ANNOUNCED && w.sim.newModel == m && w.sim.newData == Null
      && HoldsOwn(w) && Pair(m, d) && Named(w, first, m, d)
    case Requesting(first, m, d) => w.sim.request == ANNOUNCED && w.sim.newModel == m && w.sim.newData == d
      && HoldsOwn(w) && Pair(m, d) && Named(w, first, m, d)
    case Waiting(first, m, d) => Pair(m, d) && (first ==> w.m == m && w.d == d)
      && (Handed(w, m, d) || Pending(w, m, d))
    case DeletingData(m, d) => Handed(w, m, d)
    case DeletingModel(m, d) => Handed(w, m, d)
    case Replacing(m, d) => Handed(w, m, d)
  }

  ghost predicate Named(w: World, first: bool, m: Ref, d: Ref) {
    first ==> w.m == m && w.d == d && w.sim.model == Null
  }

  ghost predicate Handed(w: World, m: Ref, d: Ref) {
    w.sim.request == CLEAR && w.sim.model == m && w.sim.data == d && Blank(w) && Pair(m, d)
  }

  /** Published and not adopted yet; once the label is due, the next frame drawn shows it. */
  ghost predicate Pending(w: World, m: Ref, d: Ref) {
    (w.sim.request == PUBLISHED || w.sim.request == LABELLED)
    && w.sim.newModel == m && w.sim.newData == d && HoldsOwn(w)
    && (w.sim.request == LABELLED ==> w.draws == if w.render == Top then 1 else 0)
  }

  ghost predicate Sound(w: World) {
    Accounted(w) && InPhase(w)
  }

  lemma StartIsSound(fileGiven: bool)
    ensures Sound(Start(fileGiven))
  {
  }

  lemma AllocationKeepsAccount(w: World, success: bool)
    requires Sound(w) && (w.physics.Loading? || w.physics.Making?)
    ensures Accounted(PhysicsStep(w, success))
  {
  }

  lemma DeletionKeepsAccount(w: World, success: bool)
    requires Sound(w) && (w.physics.DeletingData? || w.physics.DeletingModel? || w.physics.Replacing?)
    ensures Accounted(PhysicsStep(w, success))
  {
  }

  lemma PhysicsKeeps(w: World, success: bool)
    requires Sound(w)
    ensures Sound(PhysicsStep(w, success))
  {
    if w.physics.Loading? || w.physics.Making? {
      AllocationKeepsAccount(w, success);
    } else if w.physics.DeletingData? || w.physics.DeletingModel? || w.physics.Replacing? {
      DeletionKeepsAccount(w, success);
    }
  }

  lemma RenderKeeps(w: World)
    requires Sound(w)
    ensures Sound(RenderStep(w))
  {
    assert Own(RenderStep(w)) == Own(w) && InHand(RenderStep(w)) == InHand(w);
  }

  lemma {:induction false} AlwaysSound(fileGiven: bool, cs: seq<Choice>)
    ensures Sound(Run(Start(fileGiven), cs))
    decreases |cs|
  {
    if cs == [] {
      StartIsSound(fileGiven);
    } else {
      hide Sound, PhysicsStep, RenderStep;
      AlwaysSound(fileGiven, cs[..|cs| - 1]);
      var w := Run(Start(fileGiven), cs[..|cs| - 1]);
      RenderKeeps(w);
      if cs[|cs| - 1].PhysicsMoves? {
        PhysicsKeeps(w, cs[|cs| - 1].success);
      }
    }
  }

  // ----- What follows, on every interleaving -----

  ghost predicate Usable(w: World, r: Ref) {
    r == Null || (r.id in w.live && r.id !in w.freed)
  }

  /** What the render thread holds is never freed: neither what it draws nor what it is about to adopt. */
  lemma RenderHoldsLive(fileGiven: bool, cs: seq<Choice>)
    ensures var w := Run(Start(fileGiven), cs);
      Usable(w, w.sim.model) && Usable(w, w.sim.data)
      && (w.sim.request == LABELLED ==>
            Pair(w.sim.newModel, w.sim.newData) && Usable(w, w.sim.newModel) && Usable(w, w.sim.newData))
  {
    AlwaysSound(fileGiven, cs);
  }

  /** Every deletion is of an object still alive, and not of one the render thread holds. */
  lemma DeletesOnlyUnheld(fileGiven: bool, cs: seq<Choice>)
    ensures var w := Run(Start(fileGiven), cs);
      (w.physics.DeletingData? ==> Usable(w, w.d) && (w.d.At? ==> w.d != w.sim.model && w.d != w.sim.data))
      && (w.physics.DeletingModel? ==> Usable(w, w.m) && (w.m.At? ==> w.m != w.sim.model && w.m != w.sim.data))
  {
    AlwaysSound(fileGiven, cs);
  }

  /** Load returns only once the render thread holds exactly the pair it passed, after one frame with the label. */
  lemma LoadReturnsAdopted(fileGiven: bool, cs: seq<Choice>, success: bool)
    ensures var w := Run(Start(fileGiven), cs);
      w.physics.Waiting? && PhysicsStep(w, success).physics != w.physics ==>
        w.sim == Shared(CLEAR, w.physics.m, w.physics.d, Null, Null)
  {
    AlwaysSound(fileGiven, cs);
  }

  /** The request only ever goes 0 -> 3, 3 -> 0 on a failed load, 3 -> 2, 2 -> 1, 1 -> 0, each by the right thread. */
  predicate RequestMay(before: int, after: int, c: Choice) {
    before == after
    || (c.PhysicsMoves? && before == CLEAR && after == ANNOUNCED)
    || (c.PhysicsMoves? && before == ANNOUNCED && (after == CLEAR || after == PUBLISHED))
    || (c.RenderMoves? && ((before == PUBLISHED && after == LABELLED) || (before == LABELLED && after == CLEAR)))
  }

  lemma RequestMoves(fileGiven: bool, cs: seq<Choice>, c: Choice)
    ensures var w := Run(Start(fileGiven), cs);
      RequestMay(w.sim.request, Step(w, c).sim.request, c)
      && (w.sim.request == LABELLED && Step(w, c).sim.request == CLEAR ==> w.draws == 1 && w.physics.Waiting?)
      && (w.sim.model != Step(w, c).sim.model || w.sim.data != Step(w, c).sim.data ==> w.sim.request == LABELLED)
  {
    AlwaysSound(fileGiven, cs);
  }

  /** Nothing is lost but the models whose data could not be allocated: between loads all else is the pair or freed. */
  lemma NothingElseLeaks(fileGiven: bool, cs: seq<Choice>, success: bool)
    ensures var w := Run(Start(fileGiven), cs);
      (w.physics == Loop ==> w.live == Ids(w.m) + Ids(w.d) + w.leaked)
      && (forall i :: 0 <= i < w.next <==> i in w.live || i in w.freed)
      && PhysicsStep(w, success).leaked
         == w.leaked + if w.physics.Making? && !w.physics.first && !success then Ids(w.physics.m) else {}
  {
    AlwaysSound(fileGiven, cs);
  }

  // ----- Progress -----

  function RenderMovesIn(cs: seq<Choice>): nat {
    if cs == [] then 0 else RenderMovesIn(cs[..|cs| - 1]) + if cs[|cs| - 1].RenderMoves? then 1 else 0
  }

  /** Render steps until adoption. */
  function StepsLeft(w: World): nat {
    if w.sim.request == CLEAR then 0
    else (if w.render == Drawing then 1 else 0) + if w.sim.request == PUBLISHED then 3 else 1
  }

  lemma WaitingStep(w: World, c: Choice)
    requires Sound(w) && w.physics.Waiting? && w.sim.request != CLEAR
    ensures Step(w, c).physics == w.physics
    ensures StepsLeft(Step(w, c)) == StepsLeft(w) - if c.RenderMoves? then 1 else 0
  {
  }

  /** Four render steps after Load has published, whatever else is interleaved, the pair has been adopted. */
  lemma {:induction false} AdoptedWithinFour(w: World, cs: seq<Choice>)
    requires Sound(w) && w.physics.Waiting? && w.sim.request != CLEAR
    ensures Sound(Run(w, cs))
    ensures RenderMovesIn(cs) < StepsLeft(w) <= 4 ==>
      Run(w, cs).physics == w.physics && StepsLeft(Run(w, cs)) == StepsLeft(w) - RenderMovesIn(cs)
    ensures StepsLeft(w) <= 4
    ensures RenderMovesIn(cs) >= StepsLeft(w) ==>
      exists k :: 0 <= k <= |cs| && Run(w, cs[..k]).physics == w.physics && Run(w, cs[..k]).sim.request == CLEAR
    decreases |cs|
  {
    if cs != [] {
      var (before, c) := (cs[..|cs| - 1], cs[|cs| - 1]);
      AdoptedWithinFour(w, before);
      var u := Run(w, before);
      hide Sound, PhysicsStep, RenderStep, StepsLeft;
      RenderKeeps(u);
      if c.PhysicsMoves? {
        PhysicsKeeps(u, c.success);
      }
      if RenderMovesIn(before) < StepsLeft(w) {
        Unfinished(u);
        WaitingStep(u, c);
        if RenderMovesIn(cs) >= StepsLeft(w) {
          Finished(Run(w, cs));
          assert cs[..|cs|] == cs;
        }
      } else {
        var k :| 0 <= k <= |before| && Run(w, before[..k]).physics == w.physics
            && Run(w, before[..k]).sim.request == CLEAR;
        assert before[..k] == cs[..k];
      }
    }
  }

  lemma Unfinished(w: World)
    requires StepsLeft(w) > 0
    ensures w.sim.request != CLEAR
  {
  }

  lemma Finished(w: World)
    requires StepsLeft(w) == 0
    ensures w.sim.request == CLEAR
  {
  }
}

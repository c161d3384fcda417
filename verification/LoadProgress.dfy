/**
 Loads end: whatever the two threads interleave, a load that was published is adopted and then completed,
 and one that failed is called off, each within a bounded number of moves.
 */
module LoadProgress {
  import opened LoadHandshake

  function PhysicsMovesIn(cs: seq<Choice>): nat {
    if cs == [] then 0 else PhysicsMovesIn(cs[..|cs| - 1]) + if cs[|cs| - 1].PhysicsMoves? then 1 else 0
  }

  // ----- After adoption -----

  /** The physics thread is about to return from Load, with the pair adopted. */
  ghost predicate Returns(w: World) {
    Sound(w) && w.physics.Waiting? && w.sim.request == CLEAR
  }

  /** Nothing the render thread does while no request is pending changes what is handed over. */
  ghost predicate Unrequested(w: World, u: World) {
    u.sim == w.sim && u.m == w.m && u.d == w.d && u.live == w.live && u.freed == w.freed && u.reloads == w.reloads
    && u.physics == w.physics && u.pluginModel == w.pluginModel && u.pluginData == w.pluginData
  }

  lemma RenderIdle(w: World)
    requires w.sim.request == CLEAR || w.sim.request == ANNOUNCED
    ensures Unrequested(w, RenderStep(w))
  {
  }

  /**
   The return of the first load, move by move of the physics thread: it leaves Load, and then configures the
   plugins with the pair and is in its loop.
   */
  ghost predicate FirstReturn(w: World, u: World, k: nat)
    requires w.physics.Waiting?
  {
    var (m, d) := (w.physics.m, w.physics.d);
    u.sim == Shared(CLEAR, m, d, Null, Null) && u.m == m && u.d == d && u.freed == w.freed && u.reloads == w.reloads
    && match k
       case 0 => u.physics == w.physics
       case 1 => u.physics == Configuring
       case _ => u.physics == Loop && u.pluginModel == m && u.pluginData == d
  }

  /** The return of a load of the loop: the old data and model are freed in turn, and the new pair takes their place. */
  ghost predicate ReloadReturn(w: World, u: World, k: nat)
    requires w.physics.Waiting?
  {
    var (m, d) := (w.physics.m, w.physics.d);
    u.sim == Shared(CLEAR, m, d, Null, Null)
    && u.freed == w.freed + (if k >= 2 then Ids(w.d) else {}) + (if k >= 3 then Ids(w.m) else {})
    && (k < 4 ==> u.m == w.m && u.d == w.d && u.reloads == w.reloads)
    && match k
       case 0 => u.physics == w.physics
       case 1 => u.physics == DeletingData(m, d)
       case 2 => u.physics == DeletingModel(m, d)
       case 3 => u.physics == Replacing(m, d)
       case _ => u.physics == Loop && u.m == m && u.d == d && u.reloads == w.reloads + 1
  }

  lemma FirstReturnStep(w: World, u: World, k: nat, c: Choice)
    requires Returns(w) && w.physics.first && FirstReturn(w, u, k)
    requires k + (if c.PhysicsMoves? then 1 else 0) <= 2
    ensures FirstReturn(w, Step(u, c), k + if c.PhysicsMoves? then 1 else 0)
  {
    if c.RenderMoves? {
      RenderIdle(u);
    }
  }

  lemma ReloadReturnStep(w: World, u: World, k: nat, c: Choice)
    requires Returns(w) && !w.physics.first && ReloadReturn(w, u, k)
    requires k + (if c.PhysicsMoves? then 1 else 0) <= 4
    ensures ReloadReturn(w, Step(u, c), k + if c.PhysicsMoves? then 1 else 0)
  {
    if c.RenderMoves? {
      RenderIdle(u);
    }
  }

  /** After adoption, exactly two further physics moves complete the first load, on every interleaving. */
  lemma {:induction false} FirstLoadCompletes(w: World, cs: seq<Choice>)
    requires Returns(w) && w.physics.first && PhysicsMovesIn(cs) <= 2
    ensures FirstReturn(w, Run(w, cs), PhysicsMovesIn(cs))
    decreases |cs|
  {
    if cs != [] {
      FirstLoadCompletes(w, cs[..|cs| - 1]);
      hide FirstReturn, Step;
      FirstReturnStep(w, Run(w, cs[..|cs| - 1]), PhysicsMovesIn(cs[..|cs| - 1]), cs[|cs| - 1]);
    }
  }

  /** And exactly four complete a load of the loop, freeing both old objects. */
  lemma {:induction false} ReloadCompletes(w: World, cs: seq<Choice>)
    requires Returns(w) && !w.physics.first && PhysicsMovesIn(cs) <= 4
    ensures ReloadReturn(w, Run(w, cs), PhysicsMovesIn(cs))
    decreases |cs|
  {
    if cs != [] {
      ReloadCompletes(w, cs[..|cs| - 1]);
      hide ReloadReturn, Step;
      ReloadReturnStep(w, Run(w, cs[..|cs| - 1]), PhysicsMovesIn(cs[..|cs| - 1]), cs[|cs| - 1]);
    }
  }

  // ----- From publication -----

  lemma {:induction false} RunOn(w: World, a: seq<Choice>, b: seq<Choice>)
    ensures Run(w, a + b) == Run(Run(w, a), b)
    decreases |b|
  {
    if b == [] {
      assert a + b == a;
    } else {
      var k := |b| - 1;
      assert (a + b)[..|a| + k] == a + b[..k];
      RunOn(w, a, b[..k]);
    }
  }

  /** Leaving a off at k and going on with what is left of it and b is going on in a + b. */
  lemma Spliced(a: seq<Choice>, b: seq<Choice>, k: nat, j: nat)
    requires k <= |a| && j <= |a[k..] + b|
    ensures k + j <= |a + b| && (a + b)[..k + j] == a[..k] + (a[k..] + b)[..j]
  {
    assert a + b == a[..k] + (a[k..] + b);
  }

  lemma {:induction false} MovesAdd(a: seq<Choice>, b: seq<Choice>)
    ensures PhysicsMovesIn(a + b) == PhysicsMovesIn(a) + PhysicsMovesIn(b)
    decreases |b|
  {
    if b == [] {
      assert a + b == a;
    } else {
      var k := |b| - 1;
      assert (a + b)[..|a| + k] == a + b[..k];
      MovesAdd(a, b[..k]);
    }
  }

  lemma {:induction false} RenderMovesAdd(a: seq<Choice>, b: seq<Choice>)
    ensures RenderMovesIn(a + b) == RenderMovesIn(a) + RenderMovesIn(b)
    decreases |b|
  {
    if b == [] {
      assert a + b == a;
    } else {
      var k := |b| - 1;
      assert (a + b)[..|a| + k] == a + b[..k];
      RenderMovesAdd(a, b[..k]);
    }
  }

  /** The shortest part of a schedule with n physics moves. */
  lemma {:induction false} Shortened(cs: seq<Choice>, n: nat) returns (l: nat)
    requires PhysicsMovesIn(cs) >= n
    ensures l <= |cs| && PhysicsMovesIn(cs[..l]) == n
    decreases |cs|
  {
    if PhysicsMovesIn(cs) == n {
      l := |cs|;
      assert cs[..l] == cs;
    } else {
      l := Shortened(cs[..|cs| - 1], n);
      assert cs[..|cs| - 1][..l] == cs[..l];
    }
  }

  /** The load of w is complete in u: the loop runs on the pair passed, and what it replaced is freed. */
  ghost predicate Completed(w: World, u: World)
    requires w.physics.Waiting?
  {
    u.physics == Loop && u.m == w.physics.m && u.d == w.physics.d && u.sim == Shared(CLEAR, u.m, u.d, Null, Null)
    && u.reloads == w.reloads + (if w.physics.first then 0 else 1)
    && (!w.physics.first ==> u.freed == w.freed + Ids(w.m) + Ids(w.d))
    && (w.physics.first ==> u.pluginModel == u.m && u.pluginData == u.d && u.freed == w.freed)
  }

  lemma WaitingKeeps(w: World, c: Choice)
    requires Sound(w) && w.physics.Waiting? && w.sim.request != CLEAR
    ensures var u := Step(w, c);
      u.physics == w.physics && u.m == w.m && u.d == w.d && u.freed == w.freed && u.reloads == w.reloads
  {
  }

  /**
   From publication on: four render moves and then four physics moves, whatever else is interleaved, and at
   some point the load has been completed.
   */
  lemma PublishedLoadCompletes(w: World, a: seq<Choice>, b: seq<Choice>) returns (l: nat)
    requires Sound(w) && w.physics.Waiting? && w.sim.request != CLEAR
    requires RenderMovesIn(a) >= 4 && PhysicsMovesIn(b) >= 4
    ensures l <= |a + b| && Completed(w, Run(w, (a + b)[..l]))
  {
    var k := Adopted(w, a);
    var (u, rest) := (Run(w, a[..k]), a[k..] + b);
    MovesAdd(a[k..], b);
    var j := AdoptedLoadCompletes(u, rest);
    l := k + j;
    hide Run, Completed, Returns;
    Spliced(a, b, k, j);
    RunOn(w, a[..k], rest[..j]);
    hide *;
    SameLoad(w, u, Run(u, rest[..j]));
  }

  lemma SameLoad(w: World, u: World, v: World)
    requires w.physics.Waiting? && u.physics == w.physics && u.m == w.m && u.d == w.d
    requires u.freed == w.freed && u.reloads == w.reloads && Completed(u, v)
    ensures Completed(w, v)
  {
  }

  lemma AdoptedLoadCompletes(w: World, cs: seq<Choice>) returns (l: nat)
    requires Returns(w) && PhysicsMovesIn(cs) >= 4
    ensures l <= |cs| && Completed(w, Run(w, cs[..l]))
  {
    l := Shortened(cs, if w.physics.first then 2 else 4);
    if w.physics.first {
      FirstLoadCompletes(w, cs[..l]);
    } else {
      ReloadCompletes(w, cs[..l]);
    }
  }

  /** The first point at which the pair has been adopted. */
  lemma Adopted(w: World, cs: seq<Choice>) returns (k: nat)
    requires Sound(w) && w.physics.Waiting? && w.sim.request != CLEAR && RenderMovesIn(cs) >= StepsLeft(w)
    ensures k <= |cs| && Returns(Run(w, cs[..k]))
    ensures var u := Run(w, cs[..k]);
      u.physics == w.physics && u.m == w.m && u.d == w.d && u.freed == w.freed && u.reloads == w.reloads
  {
    k := 0;
    assert Run(w, cs[..0]) == w && cs[..|cs|] == cs;
    while Run(w, cs[..k]).sim.request != CLEAR
      invariant k <= |cs| && Sound(Run(w, cs[..k])) && w.physics.Waiting?
      invariant var u := Run(w, cs[..k]);
        u.physics == w.physics && u.m == w.m && u.d == w.d && u.freed == w.freed && u.reloads == w.reloads
        && (u.sim.request != CLEAR ==> StepsLeft(u) == StepsLeft(w) - RenderMovesIn(cs[..k]))
      decreases |cs| - k
    {
      var u := Run(w, cs[..k]);
      assert cs[..k + 1][..k] == cs[..k];
      WaitingKeeps(u, cs[k]);
      WaitingStep(u, cs[k]);
      RenderKeeps(u);
      if cs[k].PhysicsMoves? {
        PhysicsKeeps(u, cs[k].success);
      }
      k := k + 1;
    }
  }

  // ----- Loads that fail -----

  /**
   A load or an allocation fails. One further physics move calls the request off, whatever the render thread
   does in between, and the pair in use stays as it is.
   */
  ghost predicate CalledOff(w: World, u: World, first: bool, k: nat) {
    u.sim == w.sim.(request := if k == 0 then ANNOUNCED else CLEAR) && u.m == w.m && u.d == w.d && u.freed == w.freed
    && u.reloads == w.reloads && u.physics == if k == 0 then Clearing(first) else if first then Configuring else Loop
  }

  lemma {:induction false} FailureIsCalledOff(w: World, cs: seq<Choice>)
    requires Sound(w) && (w.physics.Loading? || w.physics.Making?) && PhysicsMovesIn(cs) <= 1
    ensures CalledOff(w, Run(PhysicsStep(w, false), cs), w.physics.first, PhysicsMovesIn(cs))
    decreases |cs|
  {
    if cs != [] {
      var u := Run(PhysicsStep(w, false), cs[..|cs| - 1]);
      FailureIsCalledOff(w, cs[..|cs| - 1]);
      if cs[|cs| - 1].RenderMoves? {
        RenderIdle(u);
      }
    }
  }

  // ----- Loads that succeed -----

  /** Everything the physics thread tries succeeds. */
  ghost predicate Succeeds(cs: seq<Choice>) {
    forall i :: 0 <= i < |cs| ==> cs[i] != PhysicsMoves(false)
  }

  ghost predicate Loads(p: Physics, k: nat) {
    match k
    case 0 => p == Boot || p == Loop
    case 1 => p.Loading?
    case 2 => p.Making?
    case 3 => p.WritingModel?
    case 4 => p.WritingData?
    case 5 => p.Requesting?
    case _ => false
  }

  lemma {:induction false} LoadAdvances(w: World, cs: seq<Choice>)
    requires Loads(w.physics, 0) && Succeeds(cs) && PhysicsMovesIn(cs) <= 5
    ensures Loads(Run(w, cs).physics, PhysicsMovesIn(cs))
    decreases |cs|
  {
    if cs != [] {
      LoadAdvances(w, cs[..|cs| - 1]);
    }
  }

  /** A load that nothing fails in publishes its pair with the sixth physics move, on every interleaving. */
  lemma SuccessPublishes(w: World, cs: seq<Choice>)
    requires Loads(w.physics, 0) && Succeeds(cs) && PhysicsMovesIn(cs) == 5
    ensures var u := Run(w, cs + [PhysicsMoves(true)]);
      u.physics.Waiting? && u.sim.request == PUBLISHED
  {
    LoadAdvances(w, cs);
    assert (cs + [PhysicsMoves(true)])[..|cs|] == cs;
  }

  // ----- Every load ends -----

  /** Physics moves until the loop, or until the load is published. */
  function MovesLeft(p: Physics): nat {
    match p
    case Loop => 0
    case Waiting(_, _, _) => 0
    case Requesting(_, _, _) => 1
    case WritingData(_, _, _) => 2
    case WritingModel(_, _, _) => 3
    case Making(_, _) => 4
    case Loading(_) => 5
    case Boot => 6
    case Configuring => 1
    case Clearing(_) => 2
    case Replacing(_, _) => 1
    case DeletingModel(_, _) => 2
    case DeletingData(_, _) => 3
  }

  lemma MovesFall(w: World, c: Choice)
    requires Sound(w) && MovesLeft(w.physics) > 0
    ensures if c.PhysicsMoves? then MovesLeft(Step(w, c).physics) < MovesLeft(w.physics)
            else Step(w, c).physics == w.physics
    ensures Step(w, c).physics.Waiting? ==> Step(w, c).sim.request != CLEAR
  {
  }

  /** At most six physics moves reach the loop or a published load. */
  lemma LoopOrPublished(w: World, cs: seq<Choice>) returns (k: nat)
    requires Sound(w) && MovesLeft(w.physics) > 0 && PhysicsMovesIn(cs) >= MovesLeft(w.physics)
    ensures k <= |cs|
    ensures var u := Run(w, cs[..k]); Sound(u) && (u.physics == Loop || (u.physics.Waiting? && u.sim.request != CLEAR))
  {
    k := 0;
    assert Run(w, cs[..0]) == w && cs[..|cs|] == cs;
    while MovesLeft(Run(w, cs[..k]).physics) > 0
      invariant k <= |cs| && Sound(Run(w, cs[..k]))
      invariant var u := Run(w, cs[..k]);
        MovesLeft(u.physics) + PhysicsMovesIn(cs[..k]) <= MovesLeft(w.physics)
        && (u.physics.Waiting? ==> u.sim.request != CLEAR)
      decreases |cs| - k
    {
      var u := Run(w, cs[..k]);
      assert cs[..k + 1][..k] == cs[..k];
      MovesFall(u, cs[k]);
      RenderKeeps(u);
      if cs[k].PhysicsMoves? {
        PhysicsKeeps(u, cs[k].success);
      }
      k := k + 1;
    }
  }

  /**
   From wherever both threads are, six physics moves, four render moves and four physics moves, in any
   interleaving and whatever succeeds, have led back to the loop at some point.
   */
  lemma LoopComesBack(fileGiven: bool, cs: seq<Choice>, a: seq<Choice>, b: seq<Choice>, c: seq<Choice>)
    returns (l: nat)
    requires PhysicsMovesIn(a) >= 6 && RenderMovesIn(b) >= 4 && PhysicsMovesIn(c) >= 4
    ensures l <= |a + b + c| && Run(Run(Start(fileGiven), cs), (a + b + c)[..l]).physics == Loop
  {
    var (w, all) := (Run(Start(fileGiven), cs), a + b + c);
    AlwaysSound(fileGiven, cs);
    MovesAdd(a, b);
    MovesAdd(a + b, c);
    hide Run, Sound, Completed;
    if w.physics == Loop {
      l := 0;
      RunNone(w);
    } else if w.physics.Waiting? && w.sim.request == CLEAR {
      l := AdoptedLoadCompletes(w, all);
      LoopWhenCompleted(w, Run(w, all[..l]));
    } else if w.physics.Waiting? {
      RenderMovesAdd(a, b);
      l := PublishedLoadCompletes(w, a + b, c);
      LoopWhenCompleted(w, Run(w, all[..l]));
    } else {
      var k := LoopOrPublished(w, a);
      var u := Run(w, a[..k]);
      l := k;
      assert all[..k] == a[..k];
      if u.physics != Loop {
        RenderMovesAdd(a[k..], b);
        var j := PublishedLoadCompletes(u, a[k..] + b, c);
        l := k + j;
        LoopWhenCompleted(u, Run(u, (a[k..] + b + c)[..j]));
        assert a[k..] + b + c == a[k..] + (b + c) && all == a + (b + c);
        Spliced(a, b + c, k, j);
        RunOn(w, a[..k], (a[k..] + b + c)[..j]);
      }
    }
  }

  lemma RunNone(w: World)
    ensures Run(w, []) == w
  {
  }

  lemma LoopWhenCompleted(w: World, u: World)
    requires w.physics.Waiting? && Completed(w, u)
    ensures u.physics == Loop
  {
  }
}

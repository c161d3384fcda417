/**
 What a load leaves behind: a model without data if the first allocation of data failed, and a
 control plugin that keeps the pair it was configured with.
 */
module HeldPairs {
  import opened LoadHandshake

  // ----- A model without data -----

  /** The data of the command line's model could not be made, in some step of the run. */
  predicate FirstDataFailed(fileGiven: bool, cs: seq<Choice>)
    decreases |cs|
  {
    cs != []
    && (FirstDataFailed(fileGiven, cs[..|cs| - 1])
        || (cs[|cs| - 1] == PhysicsMoves(false)
            && Run(Start(fileGiven), cs[..|cs| - 1]).physics.Making?
            && Run(Start(fileGiven), cs[..|cs| - 1]).physics.first))
  }

  /** The command line's file is still being loaded. */
  predicate FirstLoad(p: Physics) {
    p.Boot? || ((p.Loading? || p.Making? || p.WritingModel? || p.WritingData? || p.Requesting? || p.Waiting?)
        && p.first)
  }

  /** The physics thread's model has data, except after that failure, until something else is loaded. */
  ghost predicate DataKnown(w: World, failed: bool) {
    (FirstLoad(w.physics) ==> !failed && w.reloads == 0)
    && (!FirstLoad(w.physics) ==> (w.m.At? && w.d == Null <==> failed && w.reloads == 0))
    && (w.d.At? ==> w.m.At?)
  }

  lemma DataKnownStep(w: World, failed: bool, c: Choice)
    requires Sound(w) && DataKnown(w, failed)
    ensures DataKnown(
              Step(w, c), failed || (c == PhysicsMoves(false) && w.physics.Making? && w.physics.first))
  {
    hide Accounted;
  }

  lemma {:induction false} DataAlwaysKnown(fileGiven: bool, cs: seq<Choice>)
    ensures DataKnown(Run(Start(fileGiven), cs), FirstDataFailed(fileGiven, cs))
    decreases |cs|
  {
    if cs != [] {
      var before := cs[..|cs| - 1];
      DataAlwaysKnown(fileGiven, before);
      AlwaysSound(fileGiven, before);
      hide Sound, DataKnown, Step;
      DataKnownStep(Run(Start(fileGiven), before), FirstDataFailed(fileGiven, before), cs[|cs| - 1]);
    }
  }

  /**
   The loop finds a model without data exactly if the first allocation of data failed and nothing was
   loaded since.
   */
  lemma ModelWithoutDataIff(fileGiven: bool, cs: seq<Choice>)
    ensures var w := Run(Start(fileGiven), cs);
      w.physics == Loop ==>
        (w.m.At? && w.d == Null <==> FirstDataFailed(fileGiven, cs) && w.reloads == 0)
        && (w.d.At? ==> w.m.At?)
  {
    DataAlwaysKnown(fileGiven, cs);
  }

  /** Five steps of the physics thread lead there. */
  lemma ModelWithoutData()
    ensures var w := Run(Start(true), [
        PhysicsMoves(true), PhysicsMoves(true), PhysicsMoves(false), PhysicsMoves(true), PhysicsMoves(true)]);
      w.physics == Loop && w.m.At? && w.d == Null
  {
    FiveSteps(Start(true), true, true, false, true, true);
    FailingLoad();
  }

  lemma RunOne(w: World, cs: seq<Choice>, c: Choice)
    ensures Run(w, cs + [c]) == Step(Run(w, cs), c) && Run(w, []) == w
  {
    assert (cs + [c])[..|cs|] == cs;
  }

  lemma FiveSteps(w: World, a: bool, b: bool, c: bool, d: bool, e: bool)
    ensures Run(w, [PhysicsMoves(a), PhysicsMoves(b), PhysicsMoves(c), PhysicsMoves(d), PhysicsMoves(e)])
            == PhysicsStep(PhysicsStep(PhysicsStep(PhysicsStep(PhysicsStep(w, a), b), c), d), e)
  {
    hide Run, PhysicsStep;
    RunOne(w, [], PhysicsMoves(a));
    RunOne(w, [] + [PhysicsMoves(a)], PhysicsMoves(b));
    RunOne(w, [] + [PhysicsMoves(a)] + [PhysicsMoves(b)], PhysicsMoves(c));
    RunOne(w, [] + [PhysicsMoves(a)] + [PhysicsMoves(b)] + [PhysicsMoves(c)], PhysicsMoves(d));
    var four := [] + [PhysicsMoves(a)] + [PhysicsMoves(b)] + [PhysicsMoves(c)] + [PhysicsMoves(d)];
    RunOne(w, four, PhysicsMoves(e));
    assert four + [PhysicsMoves(e)]
        == [PhysicsMoves(a), PhysicsMoves(b), PhysicsMoves(c), PhysicsMoves(d), PhysicsMoves(e)];
  }

  lemma FailingLoad()
    ensures var w := PhysicsStep(
        PhysicsStep(PhysicsStep(PhysicsStep(PhysicsStep(Start(true), true), true), false), true), true);
      w.physics == Loop && w.m.At? && w.d == Null
  {
    var loading := PhysicsStep(Start(true), true);
    var making := PhysicsStep(loading, true);
    var clearing := PhysicsStep(making, false);
    assert clearing.physics == Clearing(true) && clearing.m.At? && clearing.d == Null;
  }

  // ----- The plugin's pair -----

  /** The plugins have been configured. */
  predicate Configured(p: Physics) {
    !FirstLoad(p) && p != Configuring && p != Clearing(true)
  }

  ghost predicate Freed(w: World, r: Ref) {
    r.At? ==> r.id in w.freed
  }

  /** Until a load of the loop completes the plugin has the physics thread's pair; from then on, a freed one. */
  ghost predicate PluginKnown(w: World) {
    (w.physics.DeletingModel? || w.physics.Replacing? ==> Freed(w, w.d))
    && (w.physics.Replacing? ==> Freed(w, w.m))
    && if !Configured(w.physics) then w.pluginModel == w.pluginData == Null && w.reloads == 0
       else if w.reloads == 0 then w.pluginModel == w.m && w.pluginData == w.d
       else Freed(w, w.pluginModel) && Freed(w, w.pluginData)
  }

  lemma PluginKnownStep(w: World, c: Choice)
    requires Sound(w) && PluginKnown(w)
    ensures PluginKnown(Step(w, c))
  {
    hide Accounted;
  }

  lemma {:induction false} PluginAlwaysKnown(fileGiven: bool, cs: seq<Choice>)
    ensures PluginKnown(Run(Start(fileGiven), cs))
    decreases |cs|
  {
    if cs != [] {
      var before := cs[..|cs| - 1];
      PluginAlwaysKnown(fileGiven, before);
      AlwaysSound(fileGiven, before);
      hide Sound, PluginKnown, Step;
      PluginKnownStep(Run(Start(fileGiven), before), cs[|cs| - 1]);
    }
  }

  /** In the loop, whatever the plugin was configured with is alive exactly if nothing was loaded since. */
  lemma PluginLiveIff(fileGiven: bool, cs: seq<Choice>)
    ensures var w := Run(Start(fileGiven), cs);
      w.physics == Loop ==>
        (w.pluginModel.At? ==> (w.pluginModel.id in w.live <==> w.reloads == 0))
        && (w.pluginData.At? ==> (w.pluginData.id in w.live <==> w.reloads == 0))
  {
    PluginAlwaysKnown(fileGiven, cs);
    AlwaysSound(fileGiven, cs);
  }
}

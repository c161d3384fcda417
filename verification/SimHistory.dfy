/**
 The simulator's history: a circular buffer of states in one flat vector, and the scrubber that
 goes back through it. It refines the unbounded list of the states ever saved.
 */
module SimHistory {
  import opened Arithmetic

  const INT_MAX := 0x7fff_ffff
  const NUM_BYTES := 8
  const MAX_STATES := 2000
  const MAX_BYTES := 100_000_000

  function Min(a: int, b: int): int {
    if a < b then a else b
  }

  function Max(a: int, b: int): int {
    if a > b then a else b
  }

  /** C++ remainder: the sign is the dividend's. */
  function Rem(a: int, n: int): int
    requires n > 0
  {
    if a >= 0 then a % n else -(-a % n)
  }

  // ----- Sizing -----

  function HistoryBytes(stateBytes: int): int
    requires stateBytes > 0
  {
    Min(stateBytes * Min(INT_MAX / stateBytes, MAX_STATES), MAX_BYTES)
  }

  function HistoryLength(stateBytes: int): int
    requires stateBytes > 0
  {
    HistoryBytes(stateBytes) / stateBytes
  }

  lemma DivideBounds(a: int, b: int)
    requires a >= 0 && b > 0
    ensures 0 <= a / b * b <= a < (a / b + 1) * b && 0 <= a / b
  {
    assert a == a / b * b + a % b;
    assert (a / b + 1) * b == a / b * b + b;
  }

  /**
   The largest history within both limits, computed without leaving int; empty exactly for states over the
   byte limit.
   */
  lemma Sizing(stateBytes: int)
    requires 0 < stateBytes <= INT_MAX
    ensures 0 <= stateBytes * Min(INT_MAX / stateBytes, MAX_STATES) <= INT_MAX
    ensures HistoryLength(stateBytes) == Min(MAX_STATES, MAX_BYTES / stateBytes)
    ensures stateBytes * HistoryLength(stateBytes) <= MAX_BYTES
    ensures HistoryLength(stateBytes) >= 1 <==> stateBytes <= MAX_BYTES
  {
    var (b, most, fit) := (stateBytes, INT_MAX / stateBytes, MAX_BYTES / stateBytes);
    DivideBounds(INT_MAX, b);
    DivideBounds(MAX_BYTES, b);
    var len := Min(most, MAX_STATES);
    Ordered(len, most, b);
    Ordered(fit, most + 1, b);
    Ordered(len, fit, b);
    Ordered(len, fit + 1, b);
    Ordered(1, fit + 1, b);
    Ordered(1, fit, b);
    assert len * b == b * len;
    if b * len <= MAX_BYTES {
      QuotientIs(b * len, b, len);
      assert len <= fit;
    } else {
      assert len > fit;
    }
    Ordered(HistoryLength(b), fit, b);
  }

  // ----- The circular buffer -----

  /** Where slot i starts. */
  function Start(i: nat, size: nat): nat {
    i * size
  }

  lemma StartNext(i: nat, size: nat)
    ensures Start(i + 1, size) == Start(i, size) + size && Start(0, size) == 0
  {
  }

  lemma {:induction false} StartGrows(i: nat, j: nat, size: nat)
    requires i <= j
    ensures Start(i, size) <= Start(j, size)
  {
    if i < j {
      StartNext(j - 1, size);
      StartGrows(i, j - 1, size);
    }
  }

  lemma SlotFits(i: nat, n: nat, size: nat)
    requires i < n
    ensures Start(i, size) + size <= Start(n, size)
  {
    StartNext(i, size);
    StartGrows(i + 1, n, size);
  }

  function Slot(history: seq<real>, i: nat, size: nat): seq<real>
    requires Start(i, size) + size <= |history|
  {
    history[Start(i, size)..Start(i, size) + size]
  }

  function Written(history: seq<real>, i: nat, size: nat, state: seq<real>): seq<real>
    requires Start(i, size) + size <= |history| && |state| == size
  {
    history[..Start(i, size)] + state + history[Start(i, size) + size..]
  }

  /** Writing a slot changes that slot and no other. */
  lemma WriteSlot(history: seq<real>, i: nat, j: nat, n: nat, size: nat, state: seq<real>)
    requires i < n && j < n && |history| == Start(n, size) && |state| == size
    ensures Start(i, size) + size <= |history| && Start(j, size) + size <= |history|
    ensures |Written(history, i, size, state)| == |history|
    ensures Slot(Written(history, i, size, state), j, size) == if i == j then state else Slot(history, j, size)
  {
    hide Start;
    SlotFits(i, n, size);
    SlotFits(j, n, size);
    if i < j {
      SlotFits(i, j, size);
    } else if j < i {
      SlotFits(j, i, size);
    }
  }

  /** The state saved k saves ago; before the first save, the initial one. */
  function Saved(added: seq<seq<real>>, k: nat): seq<real>
    requires |added| > 0
  {
    added[Max(0, |added| - 1 - k)]
  }

  /** Going back from the cursor around the buffer. */
  function Behind(cursor: int, k: int, n: int): int
    requires n > 0
  {
    (cursor - k) % n
  }

  /** The scrubber's two truncating remainders find the slot k behind the cursor. */
  lemma ScrubFindsBehind(cursor: int, scrub: int, n: int)
    requires 0 <= cursor < n && 1 - n <= scrub <= 0
    ensures Rem(Rem(scrub + cursor, n) + n, n) == Behind(cursor, -scrub, n)
    ensures 0 <= Behind(cursor, -scrub, n) < n
  {
    var x := scrub + cursor;
    if x < 0 {
      Small(-x, n);
      Small(x + n, n);
      Around(x, n);
    } else {
      Small(x, n);
      Around(x, n);
    }
  }

  lemma Small(x: int, n: int)
    requires 0 <= x < n
    ensures x % n == x
  {
  }

  lemma Around(x: int, n: int)
    requires n > 0
    ensures (x + n) % n == x % n
  {
    var q := x / n;
    assert x == q * n + x % n && (q + 1) * n == q * n + n;
    QuotientIs(x + n, n, q + 1);
  }

  lemma BehindCases(cursor: int, k: int, n: int)
    requires 0 <= cursor < n && 0 <= k < n
    ensures Behind(cursor, k, n) == if k <= cursor then cursor - k else cursor - k + n
  {
    if k <= cursor {
      Small(cursor - k, n);
    } else {
      Small(cursor - k + n, n);
      Around(cursor - k, n);
    }
  }

  lemma NextCursor(cursor: int, n: int)
    requires 0 <= cursor < n
    ensures Rem(cursor + 1, n) == (if cursor + 1 < n then cursor + 1 else 0)
  {
    if cursor + 1 < n {
      Small(cursor + 1, n);
    } else {
      Around(0, n);
      Small(0, n);
    }
  }

  /** The buffer against the list: going back k from the cursor finds the state saved k saves ago. */
  ghost predicate Holds(history: seq<real>, cursor: int, n: nat, size: nat, added: seq<seq<real>>) {
    |added| > 0 && |history| == Start(n, size) && 0 <= cursor < n
    && forall k :: 0 <= k < n ==> HoldsAt(history, cursor, n, size, added, k)
  }

  ghost predicate HoldsAt(history: seq<real>, cursor: int, n: nat, size: nat, added: seq<seq<real>>, k: int)
    requires |added| > 0 && 0 <= k && n > 0
  {
    var i := Behind(cursor, k, n);
    i >= 0 && Start(i, size) + size <= |history| && Slot(history, i, size) == Saved(added, k)
  }

  /** One save: the cursor moves on, and the list grows by the state written there. */
  lemma SaveHolds(history: seq<real>, cursor: int, n: nat, size: nat, added: seq<seq<real>>, state: seq<real>)
    requires Holds(history, cursor, n, size, added) && |state| == size
    ensures var next := Rem(cursor + 1, n);
      0 <= next < n && Start(next, size) + size <= |history|
      && Holds(Written(history, next, size, state), next, n, size, added + [state])
  {
    hide Start, Slot, Written, Rem, Behind;
    NextCursor(cursor, n);
    var next := Rem(cursor + 1, n);
    SlotFits(next, n, size);
    WriteSlot(history, next, next, n, size, state);
    forall k | 0 <= k < n
      ensures HoldsAt(Written(history, next, size, state), next, n, size, added + [state], k)
    {
      BehindCases(next, k, n);
      WriteSlot(history, next, Behind(next, k, n), n, size, state);
      if k > 0 {
        BehindCases(cursor, k - 1, n);
        assert HoldsAt(history, cursor, n, size, added, k - 1);
      }
    }
  }

  // ----- The scrubber -----

  /**
   The keys, the Pause/Run button, the slider, the Reset button, the physics loop, and the render loop's Sync.
   `stepped` is the state a simulation step leads to; Stopped is a step that diverged or a failed load.
   */
  datatype Action =
    | Space
    | PauseRun(on: bool)
    | Right(stepped: seq<real>)
    | Left
    | Slide(to: int)
    | Reset
    | Simulated(stepped: seq<real>)
    | Stopped
    | Synced

  /** What the scrubber is about, apart from the buffer: every state saved, where it looks, and the flags. */
  datatype Session =
    Session(added: seq<seq<real>>, scrub: int, running: bool, loadPending: bool, resetPending: bool)

  /** What Sync puts into the simulation: its initial data, or a saved state. */
  datatype Effect = DataReset | Loaded(state: seq<real>)

  ghost predicate Acceptable(n: int, size: nat, a: Action) {
    match a
    case Right(stepped) => |stepped| == size
    case Simulated(stepped) => |stepped| == size
    case Slide(to) => 1 - n <= to <= 0
    case _ => true
  }

  /** What an action does; before a model is loaded, only a failed load does anything. */
  function After(n: int, s: Session, a: Action): Session {
    if a.Stopped? then s.(running := false)
    else if s.added == [] then s
    else match a
    case Space => if s.running then s.(running := false) else s.(running := true, scrub := 0)
    case PauseRun(on) => s.(running := on)
    case Right(stepped) =>
      if s.running then s
      else if s.scrub < 0 then s.(scrub := s.scrub + 1, loadPending := true)
      else s.(added := s.added + [stepped])
    case Left => s.(running := false, scrub := Max(s.scrub - 1, 1 - n), loadPending := true)
    case Slide(to) => s.(running := false, scrub := to, loadPending := true)
    case Reset => s.(resetPending := true)
    case Simulated(stepped) => if s.running then s.(added := s.added + [stepped]) else s
    case Synced => s.(scrub := if s.resetPending then 0 else s.scrub, loadPending := false, resetPending := false)
  }

  /** What a Sync does to the simulation: the reset first, then the load, from where the reset put the scrubber. */
  function Effects(s: Session): seq<Effect>
    requires s.scrub <= 0
  {
    (if s.resetPending then [DataReset] else [])
    + (if s.loadPending && s.added != [] then [Loaded(Saved(s.added, if s.resetPending then 0 else -s.scrub))] else [])
  }

  /** The initial state in the first slot, then copied to each of the others. */
  method Filled(initial: seq<real>, n: nat) returns (r: seq<real>)
    requires n >= 1
    ensures |r| == Start(n, |initial|)
    ensures forall j :: 0 <= j < n ==> SlotIs(r, j, |initial|, initial)
  {
    hide Start;
    var size := |initial|;
    r := initial;
    StartNext(0, size);
    for i := 1 to n
      invariant |r| == Start(i, size)
      invariant forall j :: 0 <= j < i ==> SlotIs(r, j, size, initial)
    {
      StartNext(i, size);
      ghost var was := r;
      r := r + initial;
      forall j | 0 <= j <= i
        ensures SlotIs(r, j, size, initial)
      {
        assert j < i ==> SlotIs(was, j, size, initial);
      }
    }
  }

  function AfterAll(n: int, s: Session, actions: seq<Action>): Session
    decreases |actions|
  {
    if actions == [] then s else After(n, AfterAll(n, s, actions[..|actions| - 1]), actions[|actions| - 1])
  }

  /** What the Syncs of a run do to the simulation, one after the other. */
  ghost function Done(n: int, s: Session, actions: seq<Action>): seq<Effect>
    decreases |actions|
  {
    if actions == [] then []
    else
      var (before, a) := (AfterAll(n, s, actions[..|actions| - 1]), actions[|actions| - 1]);
      Done(n, s, actions[..|actions| - 1])
      + if a == Synced && before.added != [] && before.scrub <= 0 then Effects(before) else []
  }

  /** Whatever keys are pressed, the scrubber stays inside the buffer and no saved state is ever taken back. */
  lemma {:induction false} ScrubStaysInside(n: int, size: nat, s: Session, actions: seq<Action>)
    requires n >= 1 && 1 - n <= s.scrub <= 0
    requires forall i :: 0 <= i < |actions| ==> Acceptable(n, size, actions[i])
    ensures 1 - n <= AfterAll(n, s, actions).scrub <= 0
    ensures |s.added| <= |AfterAll(n, s, actions).added| && AfterAll(n, s, actions).added[..|s.added|] == s.added
    decreases |actions|
  {
    if actions != [] {
      var before := actions[..|actions| - 1];
      assert forall i :: 0 <= i < |before| ==> before[i] == actions[i];
      ScrubStaysInside(n, size, s, before);
      assert Acceptable(n, size, actions[|actions| - 1]);
    }
  }

  /** A step back then forward, and otherwise nothing new, exactly if the scrubber was not at the end of the buffer. */
  lemma LeftThenRight(n: int, s: Session, stepped: seq<real>)
    requires n >= 1 && 1 - n <= s.scrub <= 0 && s.added != []
    ensures After(n, After(n, s, Left), Right(stepped)) == s.(running := false, loadPending := true)
            <==> s.scrub > 1 - n
  {
    if s.scrub == 1 - n && n == 1 {
      assert |After(n, After(n, s, Left), Right(stepped)).added| == |s.added| + 1;
    }
  }

  // ----- Reset -----

  /** Does the action ask for a saved state? */
  predicate AsksForState(s: Session, a: Action) {
    match a
    case Right(_) => !s.running && s.scrub < 0
    case Left => true
    case Slide(_) => true
    case _ => false
  }

  /** Action i of a run asks for a saved state. */
  predicate AsksAt(n: int, s: Session, actions: seq<Action>, i: nat)
    requires i < |actions|
  {
    AsksForState(AfterAll(n, s, actions[..i]), actions[i])
  }

  /** What is pending after an action between two Syncs. */
  lemma PendingStep(n: int, s: Session, a: Action)
    requires s.added != [] && a != Synced
    ensures var t := After(n, s, a);
      t.added != []
      && (t.loadPending <==> s.loadPending || AsksForState(s, a))
      && (t.resetPending <==> s.resetPending || a == Reset)
  {
  }

  lemma {:induction false} PendingIff(n: int, s: Session, actions: seq<Action>)
    requires s.added != [] && !s.loadPending && Synced !in actions
    ensures var t := AfterAll(n, s, actions);
      t.added != []
      && (t.loadPending <==> exists i :: 0 <= i < |actions| && AsksAt(n, s, actions, i))
      && (t.resetPending <==> s.resetPending || Reset in actions)
    decreases |actions|
  {
    if actions != [] {
      var k := |actions| - 1;
      var before := actions[..k];
      hide After, AsksForState;
      assert actions == before + [actions[k]];
      PendingIff(n, s, before);
      PendingStep(n, AfterAll(n, s, before), actions[k]);
      forall i | 0 <= i < k
        ensures AsksAt(n, s, before, i) <==> AsksAt(n, s, actions, i)
      {
        assert before[..i] == actions[..i];
      }
      assert AsksAt(n, s, actions, k) <==> AsksForState(AfterAll(n, s, before), actions[k]);
      hide AfterAll, AsksAt;
    }
  }

  lemma SyncAfterReset(n: int, t: Session)
    requires t.scrub <= 0 && t.added != [] && t.resetPending
    ensures After(n, t, Synced) == t.(scrub := 0, loadPending := false, resetPending := false)
    ensures Effects(t) == if t.loadPending then [DataReset, Loaded(t.added[|t.added| - 1])] else [DataReset]
  {
  }

  /**
   A Sync after a reset shows the initial data exactly if nothing asked for a saved state since the last
   Sync; otherwise the latest saved state takes its place and the reset is lost. The scrubber is back at 0.
   */
  lemma ResetShowsIff(n: int, size: nat, s: Session, actions: seq<Action>)
    requires n >= 1 && 1 - n <= s.scrub <= 0 && s.added != [] && !s.loadPending
    requires Synced !in actions && Reset in actions
    requires forall i :: 0 <= i < |actions| ==> Acceptable(n, size, actions[i])
    ensures var t := AfterAll(n, s, actions);
      t.scrub <= 0 && t.added != []
      && After(n, t, Synced) == t.(scrub := 0, loadPending := false, resetPending := false)
      && (Effects(t) == [DataReset]
          <==> forall i :: 0 <= i < |actions| ==> !AsksAt(n, s, actions, i))
      && (Effects(t) == [DataReset] || Effects(t) == [DataReset, Loaded(t.added[|t.added| - 1])])
  {
    hide *;
    ScrubStaysInside(n, size, s, actions);
    PendingIff(n, s, actions);
    SyncAfterReset(n, AfterAll(n, s, actions));
  }

  // ----- What scrubbing shows -----

  /** The state saved k saves before the latest one, or the first when there were not so many. */
  function SavesAgo(added: seq<seq<real>>, k: nat): seq<real>
    requires added != []
  {
    if k < |added| then added[|added| - 1 - k] else added[0]
  }

  /**
   After any actions with a load pending and no reset, the next Sync loads once, the state saved as many saves
   ago as the scrubber looks back, and leaves the scrubber there.
   */
  lemma SyncShows(n: int, size: nat, s: Session, actions: seq<Action>)
    requires n >= 1 && 1 - n <= s.scrub <= 0 && s.added != []
    requires forall i :: 0 <= i < |actions| ==> Acceptable(n, size, actions[i])
    requires AfterAll(n, s, actions).loadPending && !AfterAll(n, s, actions).resetPending
    ensures var t := AfterAll(n, s, actions);
      1 - n <= t.scrub <= 0 && t.added != [] && Effects(t) == [Loaded(SavesAgo(t.added, -t.scrub))]
      && After(n, t, Synced) == t.(loadPending := false)
  {
    ScrubStaysInside(n, size, s, actions);
    hide AfterAll;
  }

  /** j presses of the left key. */
  function LeftKeys(j: nat): seq<Action> {
    seq(j, i => Left)
  }

  lemma {:induction false} LeftKeysLookBack(n: int, s: Session, j: nat)
    requires n >= 1 && s.scrub == 0 && s.added != []
    ensures AfterAll(n, s, LeftKeys(j)) ==
            if j == 0 then s else s.(running := false, loadPending := true, scrub := -Min(j, n - 1))
  {
    if j > 0 {
      LeftKeysLookBack(n, s, j - 1);
      assert LeftKeys(j)[..j - 1] == LeftKeys(j - 1);
    }
  }

  /** From the present, j left keys and a Sync show the state saved j saves ago, or as far back as the buffer goes. */
  lemma LeftKeysShow(n: int, s: Session, j: nat)
    requires n >= 1 && s.scrub == 0 && s.added != [] && !s.resetPending && j >= 1
    ensures var t := AfterAll(n, s, LeftKeys(j));
      t.scrub <= 0 && Effects(t) == [Loaded(SavesAgo(s.added, if j < n then j else n - 1))]
  {
    LeftKeysLookBack(n, s, j);
  }

  /** Moving the slider to -k and a Sync show the state saved k saves ago. */
  lemma SlideShows(n: int, s: Session, k: int)
    requires 0 <= k < n && s.added != [] && !s.resetPending
    ensures After(n, s, Slide(-k)).scrub == -k
    ensures Effects(After(n, s, Slide(-k))) == [Loaded(SavesAgo(s.added, k))]
  {
  }

  // ----- What is saved -----

  function Steps(states: seq<seq<real>>): seq<Action> {
    seq(|states|, i requires 0 <= i < |states| => Simulated(states[i]))
  }

  /** While time runs, every simulation step is saved, in order; while it does not, none is. */
  lemma {:induction false} StepsSaved(n: int, s: Session, states: seq<seq<real>>)
    requires s.added != []
    ensures AfterAll(n, s, Steps(states)) == if s.running then s.(added := s.added + states) else s
    decreases |states|
  {
    if states == [] {
      assert s.added + states == s.added;
    } else {
      var k := |states| - 1;
      StepsSaved(n, s, states[..k]);
      assert Steps(states)[..k] == Steps(states[..k]);
      assert s.added + states == s.added + states[..k] + [states[k]];
    }
  }

  /** The space key turns saving on, from the present, and off again; a failure turns it off. */
  lemma SpaceSwitchesSaving(n: int, s: Session, states: seq<seq<real>>)
    requires s.added != []
    ensures AfterAll(n, After(n, s, Space), Steps(states))
            == if s.running then s.(running := false)
               else s.(running := true, scrub := 0, added := s.added + states)
    ensures AfterAll(n, After(n, s, Stopped), Steps(states)) == s.(running := false)
  {
    StepsSaved(n, After(n, s, Space), states);
    StepsSaved(n, After(n, s, Stopped), states);
  }

  function RightKeys(states: seq<seq<real>>): seq<Action> {
    seq(|states|, i requires 0 <= i < |states| => Right(states[i]))
  }

  /**
   While paused, right keys first walk back to the present, saving nothing, and from there on step the
   simulation and save every step.
   */
  lemma {:induction false} RightKeysSave(n: int, s: Session, states: seq<seq<real>>)
    requires s.added != [] && !s.running && s.scrub <= 0
    ensures var (r, j) := (AfterAll(n, s, RightKeys(states)), Min(|states|, -s.scrub));
      r.scrub == s.scrub + j && r.added == s.added + states[j..] && !r.running
    decreases |states|
  {
    if states == [] {
      assert s.added + states == s.added;
    } else {
      var k := |states| - 1;
      RightKeysSave(n, s, states[..k]);
      assert RightKeys(states)[..k] == RightKeys(states[..k]);
      var j := Min(k, -s.scrub);
      if s.scrub + j == 0 {
        assert states[j..] == states[..k][j..] + [states[k]];
      }
    }
  }

  // ----- Running while looking back -----

  predicate Live(s: Session) {
    s.running ==> s.scrub == 0
  }

  /** Run is pressed on the radio button while the scrubber looks back. */
  predicate RunsFromBack(s: Session, a: Action) {
    a == PauseRun(true) && s.scrub < 0
  }

  lemma LiveStep(n: int, size: nat, s: Session, a: Action)
    requires n >= 1 && 1 - n <= s.scrub <= 0 && Acceptable(n, size, a) && s.added != [] && Live(s)
    ensures Live(After(n, s, a)) <==> !RunsFromBack(s, a)
  {
  }

  ghost predicate LiveAt(n: int, s: Session, actions: seq<Action>, i: nat)
    requires i <= |actions|
  {
    Live(AfterAll(n, s, actions[..i]))
  }

  ghost predicate RunsFromBackAt(n: int, s: Session, actions: seq<Action>, i: nat)
    requires i < |actions|
  {
    RunsFromBack(AfterAll(n, s, actions[..i]), actions[i])
  }

  /**
   Time never runs while the scrubber looks back exactly if the radio button's Run is never pressed while it
   does: that button, unlike the space key, leaves the scrubber where it is.
   */
  lemma {:induction false} LiveIff(n: int, size: nat, s: Session, actions: seq<Action>)
    requires n >= 1 && 1 - n <= s.scrub <= 0 && s.added != [] && Live(s)
    requires forall i :: 0 <= i < |actions| ==> Acceptable(n, size, actions[i])
    ensures (forall i :: 0 <= i <= |actions| ==> LiveAt(n, s, actions, i))
            <==> forall i :: 0 <= i < |actions| ==> !RunsFromBackAt(n, s, actions, i)
    decreases |actions|
  {
    if actions == [] {
      assert actions[..0] == actions;
      assert LiveAt(n, s, actions, 0);
    } else {
      var k := |actions| - 1;
      var before := actions[..k];
      hide *;
      forall i | 0 <= i <= k
        ensures LiveAt(n, s, before, i) <==> LiveAt(n, s, actions, i)
        ensures i < k ==> (RunsFromBackAt(n, s, before, i) <==> RunsFromBackAt(n, s, actions, i))
      {
        SamePrefix(n, s, actions, k, i);
      }
      LiveIff(n, size, s, before);
      LastLive(n, size, s, actions);
    }
  }

  lemma SamePrefix(n: int, s: Session, actions: seq<Action>, k: nat, i: nat)
    requires i <= k <= |actions|
    ensures LiveAt(n, s, actions[..k], i) <==> LiveAt(n, s, actions, i)
    ensures i < k ==> (RunsFromBackAt(n, s, actions[..k], i) <==> RunsFromBackAt(n, s, actions, i))
  {
    assert actions[..k][..i] == actions[..i];
  }

  lemma LastLive(n: int, size: nat, s: Session, actions: seq<Action>)
    requires n >= 1 && 1 - n <= s.scrub <= 0 && s.added != [] && actions != []
    requires forall i :: 0 <= i < |actions| ==> Acceptable(n, size, actions[i])
    ensures var k := |actions| - 1;
      LiveAt(n, s, actions, k) ==> (LiveAt(n, s, actions, k + 1) <==> !RunsFromBackAt(n, s, actions, k))
  {
    var k := |actions| - 1;
    assert actions[..k + 1] == actions;
    hide After, Acceptable, Live, RunsFromBack;
    ScrubStaysInside(n, size, s, actions[..k]);
    if LiveAt(n, s, actions, k) {
      LiveStep(n, size, AfterAll(n, s, actions[..k]), actions[k]);
    }
  }

  /** The input it happens at: a step back, Run, and a simulation step, saved while the scrubber is at -1. */
  lemma RunsLookingBack(n: int, s: Session, stepped: seq<real>)
    requires n >= 2 && s.scrub == 0 && s.added != []
    ensures After(n, After(n, After(n, s, Left), PauseRun(true)), Simulated(stepped))
            == s.(added := s.added + [stepped], scrub := -1, running := true, loadPending := true)
  {
  }

  class History {
    var stateSize: nat
    var length: nat
    var buffer: seq<real>
    var cursor: int
    var scrubIndex: int
    var running: bool
    var loadPending: bool
    var resetPending: bool
    ghost var added: seq<seq<real>>

    ghost predicate Valid() reads this {
      if added == [] then buffer == [] && !loadPending && !resetPending
      else buffer != [] && Holds(buffer, cursor, length, stateSize, added) && 1 - length <= scrubIndex <= 0
    }

    ghost function Value(): Session reads this {
      Session(added, scrubIndex, running, loadPending, resetPending)
    }

    constructor ()
      ensures Valid() && Value() == Session([], 0, true, false, false)
    {
      stateSize, length, buffer, cursor, scrubIndex := 0, 0, [], 0, 0;
      running, loadPending, resetPending, added := true, false, false, [];
    }

    /** Loading a model whose state fits the byte limit: every slot becomes the initial state. */
    method LoadModel(size: nat, initial: seq<real>)
      requires 0 < size * NUM_BYTES <= MAX_BYTES && |initial| == size
      modifies this
      ensures Valid() && length == HistoryLength(size * NUM_BYTES) && stateSize == size
      ensures Value() == Session([initial], 0, old(running), old(loadPending), old(resetPending))
    {
      hide Start, HistoryLength, Behind, Slot;
      Sizing(size * NUM_BYTES);
      stateSize := size;
      length := HistoryLength(size * NUM_BYTES);
      cursor, scrubIndex := 0, 0;
      buffer := Filled(initial, length);
      added := [initial];
      forall k | 0 <= k < length
        ensures HoldsAt(buffer, cursor, length, stateSize, added, k)
      {
        BehindCases(0, k, length);
        assert SlotIs(buffer, Behind(0, k, length), stateSize, initial);
      }
      assert SlotIs(buffer, 0, stateSize, initial);
    }

    method AddToHistory(state: seq<real>)
      requires Valid() && |state| == stateSize
      modifies this`buffer, this`cursor, this`added
      ensures Valid() && Value() == old(Value()).(added := if old(added) == [] then [] else old(added) + [state])
    {
      hide Start, Rem, Slot;
      if buffer == [] {
        return;
      }
      SaveHolds(buffer, cursor, length, stateSize, added, state);
      cursor := Rem(cursor + 1, length);
      buffer := Written(buffer, cursor, stateSize, state);
      added := added + [state];
    }

    /** The state the scrubber loads is the one saved as many saves ago as it was moved back, or the initial one. */
    method LoadScrubState() returns (state: seq<real>)
      requires Valid() && added != []
      ensures state == Saved(added, -scrubIndex)
    {
      hide Start, Rem, Slot, Behind;
      ScrubFindsBehind(cursor, scrubIndex, length);
      var i := Rem(scrubIndex + cursor, length);
      i := Rem(i + length, length);
      assert HoldsAt(buffer, cursor, length, stateSize, added, -scrubIndex);
      state := Slot(buffer, i, stateSize);
    }

    /** Any action; `done` is what a Sync does to the simulation, and empty for the others. */
    method Handle(a: Action) returns (done: seq<Effect>)
      requires Valid() && Acceptable(length, stateSize, a)
      modifies this
      ensures Valid() && Value() == After(length, old(Value()), a)
      ensures length == old(length) && stateSize == old(stateSize)
      ensures done == if a == Synced && old(added) != [] then Effects(old(Value())) else []
    {
      done := [];
      if a == Stopped {
        running := false;
        return;
      }
      if buffer == [] {
        return;
      }
      match a {
        case Space =>
          running := !running;
          if running {
            scrubIndex := 0;
          }
        case PauseRun(on) =>
          running := on;
        case Right(stepped) =>
          if !running {
            if scrubIndex < 0 {
              scrubIndex := scrubIndex + 1;
              loadPending := true;
            } else {
              AddToHistory(stepped);
            }
          }
        case Left =>
          running := false;
          scrubIndex := Max(scrubIndex - 1, 1 - length);
          loadPending := true;
        case Slide(to) =>
          running := false;
          scrubIndex := to;
          loadPending := true;
        case Reset =>
          resetPending := true;
        case Simulated(stepped) =>
          if running {
            AddToHistory(stepped);
          }
        case Synced =>
          done := Sync();
      }
    }

    /** Any actions one after the other, in the object; `done` is what the Syncs among them did, in order. */
    method Play(actions: seq<Action>) returns (done: seq<Effect>)
      requires Valid() && forall i :: 0 <= i < |actions| ==> Acceptable(length, stateSize, actions[i])
      modifies this
      ensures Valid() && Value() == AfterAll(length, old(Value()), actions)
      ensures length == old(length) && stateSize == old(stateSize)
      ensures done == Done(length, old(Value()), actions)
    {
      hide After, Effects, Holds, Acceptable;
      ghost var (n, was) := (length, Value());
      done := [];
      for k := 0 to |actions|
        invariant Valid() && length == n && stateSize == old(stateSize)
        invariant Value() == AfterAll(n, was, actions[..k]) && done == Done(n, was, actions[..k])
      {
        assert actions[..k + 1][..k] == actions[..k];
        var one := Handle(actions[k]);
        done := done + one;
      }
      assert actions[..|actions|] == actions;
    }

    /** Serving what is pending: a reset first, then a load from where the scrubber is by then. */
    method Sync() returns (done: seq<Effect>)
      requires Valid() && added != []
      modifies this`scrubIndex, this`loadPending, this`resetPending
      ensures Valid() && Value() == After(length, old(Value()), Synced)
      ensures done == Effects(old(Value()))
    {
      done := [];
      if resetPending {
        done := done + [DataReset];
        scrubIndex := 0;
        resetPending := false;
      }
      if loadPending {
        var state := LoadScrubState();
        done := done + [Loaded(state)];
        loadPending := false;
      }
    }
  }

  ghost predicate SlotIs(history: seq<real>, j: int, size: nat, state: seq<real>) {
    0 <= j && Start(j, size) + size <= |history| && Slot(history, j, size) == state
  }
}

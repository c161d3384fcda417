/**
 The control-rate gate: on every simulation step the controller is updated if a whole control
 period has passed since its last update. Times are nanoseconds of simulated time.
 */
module ControlRate {
  import opened Arithmetic

  /** The last update's time, and the times of all updates so far. */
  datatype Gate = Gate(last: int, updates: seq<int>)

  function Tick(period: int, g: Gate, t: int): Gate {
    if t - g.last >= period then Gate(t, g.updates + [t]) else g
  }

  class MujocoControl {
    const controlPeriod: int
    var simTime: int
    var simPeriod: int
    var lastUpdate: int
    ghost var updates: seq<int>

    ghost function Value(): Gate reads this {
      Gate(lastUpdate, updates)
    }

    constructor (controlPeriod: int)
      ensures this.controlPeriod == controlPeriod && Value() == Gate(0, [])
    {
      this.controlPeriod := controlPeriod;
      simTime, simPeriod, lastUpdate, updates := 0, 0, 0, [];
    }

    method PreUpdate(now: int)
      modifies this`simTime, this`simPeriod
      ensures simTime == now && simPeriod == now - lastUpdate
    {
      simTime := now;
      simPeriod := now - lastUpdate;
    }

    /** Goes by the period as last measured. */
    method Update()
      modifies this`lastUpdate, this`updates
      ensures Value() == if simPeriod >= controlPeriod then Gate(simTime, old(updates) + [simTime]) else old(Value())
    {
      if simPeriod >= controlPeriod {
        updates := updates + [simTime];
        lastUpdate := simTime;
      }
    }

    /** One simulation step: measure, then update. */
    method SimulationStep(now: int)
      modifies this
      ensures Value() == Tick(controlPeriod, old(Value()), now)
    {
      PreUpdate(now);
      Update();
    }
  }

  function Run(period: int, g: Gate, times: seq<int>): Gate
    decreases |times|
  {
    if times == [] then g else Tick(period, Run(period, g, times[..|times| - 1]), times[|times| - 1])
  }

  /** Simulated time starts at most one step after 0 and never goes back. */
  ghost predicate Steps(times: seq<int>, h: int) {
    (times != [] ==> 0 <= times[0] <= h) && forall i :: 0 < i < |times| ==> 0 <= times[i] - times[i - 1] <= h
  }

  function Now(times: seq<int>): int {
    if times == [] then 0 else times[|times| - 1]
  }

  /** Update k, counted from 1; the clock's origin stands for update 0. */
  function UpdateAt(g: Gate, k: nat): int
    requires k <= |g.updates|
  {
    if k == 0 then 0 else g.updates[k - 1]
  }

  /** No update is missed, and two updates are at least a period and less than a period and a step apart. */
  lemma {:induction false} OnTime(period: int, h: int, times: seq<int>)
    requires period > 0 && Steps(times, h)
    ensures var g := Run(period, Gate(0, []), times);
      g.last == UpdateAt(g, |g.updates|) && 0 <= Now(times) - g.last < period
      && forall k :: 0 <= k < |g.updates| ==> period <= UpdateAt(g, k + 1) - UpdateAt(g, k) < period + h
    decreases |times|
  {
    if times != [] {
      var before := times[..|times| - 1];
      OnTime(period, h, before);
      var (f, g) := (Run(period, Gate(0, []), before), Run(period, Gate(0, []), times));
      assert forall k :: 0 <= k <= |f.updates| ==> UpdateAt(g, k) == UpdateAt(f, k);
    }
  }

  lemma Multiples(p: int, k: int)
    ensures (k + 1) * p == k * p + p
  {
  }

  /** Update k comes no earlier than k periods, and before k periods and steps. */
  lemma {:induction false} JitterBound(period: int, h: int, times: seq<int>, k: nat)
    requires period > 0 && Steps(times, h) && k <= |Run(period, Gate(0, []), times).updates|
    ensures k * period <= UpdateAt(Run(period, Gate(0, []), times), k)
    ensures k > 0 ==> UpdateAt(Run(period, Gate(0, []), times), k) < k * (period + h)
  {
    OnTime(period, h, times);
    if k > 0 {
      JitterBound(period, h, times, k - 1);
      Multiples(period, k - 1);
      Multiples(period + h, k - 1);
    }
  }

  /** How many updates have happened by any time, within the same bounds. */
  lemma UpdateCount(period: int, h: int, times: seq<int>)
    requires period > 0 && h >= 0 && Steps(times, h)
    ensures var k := |Run(period, Gate(0, []), times).updates|;
      k * period <= Now(times) < k * (period + h) + period
  {
    OnTime(period, h, times);
    JitterBound(period, h, times, |Run(period, Gate(0, []), times).updates|);
  }

  /**
   After the clock jumps back, as a reset makes it, there is no update until it is a period past the last
   one again.
   */
  lemma {:induction false} SilentAfterReset(period: int, g: Gate, times: seq<int>)
    ensures Run(period, g, times) == g <==> forall i :: 0 <= i < |times| ==> times[i] - g.last < period
    decreases |times|
  {
    if times != [] {
      var before := times[..|times| - 1];
      assert forall i :: 0 <= i < |before| ==> before[i] == times[i];
      SilentAfterReset(period, g, before);
      UpdatesGrow(period, g, before);
    }
  }

  lemma {:induction false} UpdatesGrow(period: int, g: Gate, times: seq<int>)
    ensures |Run(period, g, times).updates| >= |g.updates|
    ensures |Run(period, g, times).updates| == |g.updates| ==> Run(period, g, times) == g
    decreases |times|
  {
    if times != [] {
      UpdatesGrow(period, g, times[..|times| - 1]);
    }
  }

  // ----- Uniform steps -----

  /** The times of n steps of h each. */
  function Uniform(n: nat, h: int): seq<int> {
    seq(n, i => (i + 1) * h)
  }

  /** The steps from one update to the next: the least number that makes up a period. */
  ghost predicate StepsPerUpdate(c: int, period: int, h: int) {
    c >= 1 && (c - 1) * h < period <= c * h
  }

  /** The time of step k * c. */
  function At(k: int, c: int, h: int): int {
    k * c * h
  }

  /** With uniform steps the bounds are attained: update k is exactly at step k * c, and no step is left out. */
  lemma {:induction false} UniformExact(period: int, h: int, c: int, n: nat)
    requires period > 0 && h > 0 && StepsPerUpdate(c, period, h)
    ensures var g := Run(period, Gate(0, []), Uniform(n, h));
      |g.updates| == n / c && g.last == At(n / c, c, h)
      && forall k :: 1 <= k <= |g.updates| ==> g.updates[k - 1] == At(k, c, h)
  {
    if n == 0 {
      QuotientIs(0, c, 0);
    } else {
      var (q, r) := ((n - 1) / c, (n - 1) % c);
      UniformExact(period, h, c, n - 1);
      assert Uniform(n, h)[..n - 1] == Uniform(n - 1, h) && Uniform(n, h)[n - 1] == Now(Uniform(n, h));
      DivideStep(n - 1, c);
      LastStep(n, h);
      ElapsedSteps(n, q, r, c, h);
      StepsReach(r + 1, c, period, h);
      hide At, Uniform, StepsPerUpdate;
    }
  }

  lemma LastStep(n: nat, h: int)
    requires n > 0
    ensures |Uniform(n, h)| == n && Uniform(n, h)[n - 1] == n * h
  {
  }

  lemma DivideStep(m: nat, c: int)
    requires c >= 1
    ensures m == m / c * c + m % c && 0 <= m % c < c
    ensures if m % c + 1 == c then (m + 1) / c == m / c + 1 && (m / c + 1) * c == m + 1 else (m + 1) / c == m / c
  {
    var (q, r) := (m / c, m % c);
    assert (q + 1) * c == q * c + c;
    if r + 1 == c {
      QuotientIs(m + 1, c, q + 1);
    } else {
      QuotientIs(m + 1, c, q);
    }
  }

  lemma ElapsedSteps(n: int, q: int, r: int, c: int, h: int)
    requires n - 1 == q * c + r
    ensures n * h - At(q, c, h) == (r + 1) * h
    ensures r + 1 == c ==> n * h == At(q + 1, c, h)
  {
    assert n * h == (q * c + (r + 1)) * h == q * c * h + (r + 1) * h;
    assert (q + 1) * c == q * c + c;
  }

  /** Fewer steps than c fall short of the period, and c make it up. */
  lemma StepsReach(s: int, c: int, period: int, h: int)
    requires h > 0 && 1 <= s <= c && StepsPerUpdate(c, period, h)
    ensures s * h >= period <==> s == c
  {
    if s < c {
      Ordered(s, c - 1, h);
    }
  }
}

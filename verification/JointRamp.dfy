/** The shape of a joint ramp: where it starts and ends, and how far it moves in one tick. */
module JointRamp {
  import opened Arithmetic
  import opened RobotControl

  /** A joint's position after c ticks of a ramp of n. */
  function Along(c: int, n: int, ini: real, fin: real): real
    requires Weight(c, n).Is?
  {
    Mix(Weight(c, n), ini, fin).value
  }

  function Part(n: int): real
    requires n >= 1
  {
    1.0 / n as real
  }

  lemma WeightSteps(c: int, n: int)
    requires 0 <= c < n < I31
    ensures Weight(c, n).Is? && Weight(c + 1, n).Is?
    ensures 0.0 <= Weight(c, n).value && Weight(c + 1, n).value == Weight(c, n).value + Part(n) <= 1.0
    ensures 0.0 < Part(n) <= 1.0
  {
    Quotients(c as real, n as real);
    assert (c + 1) as real == c as real + 1.0;
  }

  lemma Quotients(c: real, r: real)
    requires 0.0 <= c && c + 1.0 <= r
    ensures 0.0 <= c / r && (c + 1.0) / r == c / r + 1.0 / r <= 1.0 && 0.0 < 1.0 / r <= 1.0
  {
  }

  lemma SelfQuotient(r: real)
    requires r >= 1.0
    ensures 0.0 / r == 0.0 && r / r == 1.0
  {
  }

  /** The weight starts at 0, and ends at 1 whatever the count does afterwards, short of wrapping to zero. */
  lemma WeightEnds(c: int, n: int)
    requires 0 <= n < I31 && -I31 <= c < I31
    ensures n >= 1 ==> Weight(0, n) == Is(0.0)
    ensures c < 0 || c > n || (c == n && n >= 1) ==> Weight(c, n) == Is(1.0)
  {
    var r := n as real;
    if n >= 1 {
      SelfQuotient(r);
    }
    if c < 0 {
      assert c % U64 == c + U64;
    }
  }

  /** 0/0 is computed exactly by a ramp of length 0 on its first tick. */
  lemma UndefinedIff(c: int, n: int)
    requires -I31 <= c < I31 && -I31 <= n < I31
    ensures Weight(c, n) == NaN <==> c == 0 && n == 0
  {
    if n < 0 {
      assert n % U64 == n + U64;
    }
    if c < 0 {
      assert c % U64 == c + U64;
    }
  }

  lemma MixStep(b: real, d: real, ini: real, fin: real)
    ensures Mix(Is(b + d), ini, fin).value - Mix(Is(b), ini, fin).value == Times(d, fin - ini)
    ensures fin - Mix(Is(b), ini, fin).value == Times(1.0 - b, fin - ini)
    ensures Mix(Is(0.0), ini, fin).value == ini && Mix(Is(1.0), ini, fin).value == fin
  {
    assert (1.0 - (b + d)) * ini == ini - b * ini - d * ini && (1.0 - b) * ini == ini - b * ini;
    assert (b + d) * fin == b * fin + d * fin && (1.0 - b) * (fin - ini) == fin - b * fin - (ini - b * ini);
    assert d * (fin - ini) == d * fin - d * ini;
  }

  lemma MixIs(w: Number, ini: real, fin: real)
    ensures w.Is? <==> Mix(w, ini, fin).Is?
  {
  }

  lemma MixUndefined(ini: real, fin: real)
    ensures Mix(NaN, ini, fin) == NaN
  {
  }

  /** A ramp starts at the initial pose, ends at the final one, and closes the same part of the way each tick. */
  lemma RampShape(c: int, n: int, ini: real, fin: real)
    requires 0 <= c < n < I31
    ensures Weight(c, n).Is? && Weight(c + 1, n).Is? && Weight(0, n).Is? && Weight(n, n).Is?
    ensures Along(0, n, ini, fin) == ini && Along(n, n, ini, fin) == fin
    ensures Along(c + 1, n, ini, fin) - Along(c, n, ini, fin) == Times(Part(n), fin - ini)
    ensures Abs(fin - Along(c + 1, n, ini, fin)) <= Abs(fin - Along(c, n, ini, fin)) <= Abs(fin - ini)
  {
    WeightSteps(c, n);
    WeightEnds(n, n);
    hide Weight, Mix, Times, Part;
    var (b, d) := (Weight(c, n).value, Part(n));
    MixStep(b, d, ini, fin);
    MixStep(b + d, d, ini, fin);
    MixStep(0.0, d, ini, fin);
    Shrinks(1.0 - b - d, 1.0 - b, fin - ini);
    Shrinks(1.0 - b, 1.0, fin - ini);
    Units(fin - ini);
  }

  lemma AbsScales(b: real, c: real)
    requires b >= 0.0
    ensures Abs(Times(b, c)) == Times(b, Abs(c))
  {
    if c >= 0.0 {
      assert b * c >= 0.0;
    } else {
      assert b * -c >= 0.0;
    }
  }

  lemma Shrinks(a: real, b: real, x: real)
    requires 0.0 <= a <= b
    ensures Abs(Times(a, x)) <= Abs(Times(b, x))
  {
    if x >= 0.0 {
      assert 0.0 <= a * x <= b * x;
    } else {
      assert 0.0 >= a * x >= b * x;
    }
  }

  // ----- How fast -----

  lemma ByPart(n: int)
    requires n >= 1
    ensures 0.0 < Part(n) <= 1.0 && Times(Part(n), n as real + 1.0) <= 2.0
  {
    var (r, u) := (n as real, 1.0 / n as real);
    assert u * r == 1.0;
    Quotients(0.0, r);
  }

  lemma TruncBounds(x: real)
    ensures Trunc(x) >= 1 <==> x >= 1.0
    ensures x >= 0.0 ==> Trunc(x) as real <= x < Trunc(x) as real + 1.0
  {
  }

  /** Timer times rate in whole ticks. */
  lemma TicksCount(timer: real, rate: int)
    requires timer >= 0.0 && rate >= 0
    ensures 0 <= Ticks(timer, rate)
    ensures Ticks(timer, rate) as real <= Times(timer, rate as real) < Ticks(timer, rate) as real + 1.0
  {
    TruncBounds(timer * rate as real);
    ScalesUp(timer, 0.0, rate as real);
    Units(timer);
  }

  /** A ramp's length: the configured ticks times the largest distance, fractions dropped. */
  lemma ScaledCount(ticks: int, ini: seq<real>, fin: seq<real>)
    requires |ini| == |fin| > 0 && ticks >= 0
    ensures var n := ScaledTicks(ticks, ini, fin);
      0 <= n && n as real <= Times(ticks as real, MaxDistance(ini, fin)) < n as real + 1.0
  {
    TruncBounds(Reach(ticks, ini, fin));
    ScalesUp(ticks as real, 0.0, MaxDistance(ini, fin));
    Units(ticks as real);
  }

  function Reach(ticks: int, ini: seq<real>, fin: seq<real>): real
    requires |ini| == |fin| > 0
  {
    Times(ticks as real, MaxDistance(ini, fin))
  }

  /** A ramp has a positive length exactly if the largest distance is at least one configured tick's worth. */
  lemma PositiveIff(ticks: int, ini: seq<real>, fin: seq<real>)
    requires |ini| == |fin| > 0
    ensures ScaledTicks(ticks, ini, fin) >= 1 <==> Reach(ticks, ini, fin) >= 1.0
  {
    TruncBounds(Reach(ticks, ini, fin));
  }

  /**
   With no negative number of ticks configured, a ramp has length 0 exactly if less than one tick's worth
   is to be moved.
   */
  lemma EmptyIff(ticks: int, ini: seq<real>, fin: seq<real>, cap: int)
    requires |ini| == |fin| > 0 && ticks >= 0 && Reach(ticks, ini, fin) < cap as real
    ensures 0.0 <= Reach(ticks, ini, fin) && 0 <= ScaledTicks(ticks, ini, fin)
    ensures ScaledTicks(ticks, ini, fin) == 0 <==> Reach(ticks, ini, fin) < 1.0
    ensures ScaledTicks(ticks, ini, fin) < cap
  {
    var m := MaxDistance(ini, fin);
    ScalesUp(ticks as real, 0.0, m);
    Units(ticks as real);
    TruncBounds(Reach(ticks, ini, fin));
  }

  /** A robot already in the final pose has nothing to move. */
  lemma AtPoseReachesNothing(ticks: int, pose: seq<real>)
    requires |pose| > 0
    ensures MaxDistance(pose, pose) == 0.0 && Reach(ticks, pose, pose) == 0.0
  {
  }

  /** With N configured ticks no joint moves as much as 2/N in one tick, whatever the starting pose. */
  lemma StepBound(ticks: int, ini: seq<real>, fin: seq<real>, c: int, i: int)
    requires |ini| == |fin| > 0 && 0 <= i < |ini| && 0 <= c < ScaledTicks(ticks, ini, fin) < I31
    ensures ticks >= 1
    ensures var n := ScaledTicks(ticks, ini, fin);
      Weight(c, n).Is? && Weight(c + 1, n).Is?
      && Times(ticks as real, Abs(Along(c + 1, n, ini[i], fin[i]) - Along(c, n, ini[i], fin[i]))) < 2.0
  {
    var (n, m) := (ScaledTicks(ticks, ini, fin), MaxDistance(ini, fin));
    RampShape(c, n, ini[i], fin[i]);
    TruncBounds(Reach(ticks, ini, fin));
    if ticks <= 0 {
      ScalesUp(m, ticks as real, 0.0);
      TimesCommutes(ticks as real, m);
    }
    var (t, d) := (ticks as real, Abs(fin[i] - ini[i]));
    ByPart(n);
    hide Times, Part, Trunc, Along;
    AbsScales(Part(n), fin[i] - ini[i]);
    Associates(t, Part(n), d);
    ScalesUp(t, d, m);
    Grows(Part(n), Times(t, d), n as real + 1.0);
  }
}

/** Relational laws of the gate's findings: what they may depend on, and how they move. */
module GateLaws {
  import opened Wrappers
  import opened Sorting
  import opened Gate

  predicate Failing(fs: seq<Finding>) {
    exists f <- fs :: f.status == Fail
  }

  lemma FailingConcat(a: seq<Finding>, b: seq<Finding>)
    ensures Failing(a + b) <==> Failing(a) || Failing(b)
  {
    forall f | f in a || f in b ensures f in a + b {
    }
  }

  // ----- structural findings do not read the clock -----------------------------------------

  predicate SameButTimes(a: Measure, b: Measure) {
    b == a.(times := b.times)
  }

  predicate StoredSameButTimes(s: Stored, t: Stored) {
    s.Keys == t.Keys && forall k <- s.Keys :: SameButTimes(s[k], t[k])
  }

  lemma {:induction false} StructuralPairwise(xs: Measures, ys: Measures, s: Stored, t: Stored)
    requires Pairwise(xs, ys, SameButTimes) && StoredSameButTimes(s, t)
    ensures StructuralAll(xs, s) == StructuralAll(ys, t)
  {
    if xs != [] {
      assert SameButTimes(xs[0], ys[0]);
      StructuralPairwise(xs[1..], ys[1..], s, t);
    }
  }

  /** Two runs, and two baselines, that differ in times only give the same structural findings
      in the same order. */
  lemma ClockIndependence(run: Measures, other: Measures, s: Stored, t: Stored)
    requires Pairwise(run, other, SameButTimes) && StoredSameButTimes(s, t)
    ensures Structural(run, s) == Structural(other, t)
  {
    SortPairwise(run, other, KeyLe, SameButTimes);
    StructuralPairwise(Sort(run, KeyLe), Sort(other, KeyLe), s, t);
  }

  // ----- growth findings do not depend on the speed of the machine -------------------------

  /** Every time multiplied by `c`; the relative spread is a ratio of times and stays. */
  function Scaled(c: real, m: Measure): Measure {
    m.(times := m.times.(median := c * m.times.median, p95 := c * m.times.p95, least := c * m.times.least))
  }

  function ScaledRun(c: real, run: Measures): (r: Measures)
    ensures |r| == |run|
  {
    seq(|run|, i requires 0 <= i < |run| => Scaled(c, run[i]))
  }

  ghost function ScaledBy(c: real): (rel: (Measure, Measure) -> bool)
    ensures forall a, b :: rel(a, b) <==> b == Scaled(c, a)
  {
    (a, b) => b == Scaled(c, a)
  }

  lemma {:induction false} SelectScaled(c: real, xs: Measures, ys: Measures, scenario: string, formatId: string)
    requires Pairwise(xs, ys, ScaledBy(c))
    ensures Pairwise(Select(xs, scenario, formatId), Select(ys, scenario, formatId), ScaledBy(c))
  {
    if xs != [] {
      assert ScaledBy(c)(xs[0], ys[0]);
      SelectScaled(c, xs[1..], ys[1..], scenario, formatId);
    }
  }

  lemma RatioScaled(c: real, a: real, b: real)
    requires c > 0.0
    ensures Ratio(c * a, c * b) == Ratio(a, b)
  {
    if b != 0.0 {
      assert c * b != 0.0;
      CancelFactor(c, a, b);
    }
  }

  lemma CancelFactor(c: real, a: real, b: real)
    requires c > 0.0 && b != 0.0 && c * b != 0.0
    ensures (c * a) / (c * b) == a / b
  {
    var q := a / b;
    assert q * b == a;
    assert c * a == q * (c * b);
  }

  lemma ScaledTimes(c: real, m: Measure)
    ensures var n := Scaled(c, m);
            && n.times.median == c * m.times.median
            && n.nodes == m.nodes && n.phase == m.phase && n.counters == m.counters
  {
  }

  lemma ScalingOfScaled(c: real, small: Measure, large: Measure, scenario: string, formatId: string)
    requires c > 0.0 && small.nodes > 0 && (small.counters.Some? <==> large.counters.Some?)
    ensures ScalingOf(small, large, scenario, formatId) == ScalingOf(Scaled(c, small), Scaled(c, large), scenario, formatId)
  {
    RatioScaled(c, large.times.median, small.times.median);
    ScaledTimes(c, small);
    ScaledTimes(c, large);
    GrowthDependence(small, large, Scaled(c, small), Scaled(c, large), scenario, formatId);
  }

  /** The growth check of two points reads their nodes, phase, counters and ratio of medians. */
  lemma GrowthDependence(a: Measure, b: Measure, a': Measure, b': Measure, scenario: string, formatId: string)
    requires a.nodes > 0 && (a.counters.Some? <==> b.counters.Some?)
    requires a'.nodes == a.nodes && a'.phase == a.phase && a'.counters == a.counters
    requires b'.nodes == b.nodes && b'.phase == b.phase && b'.counters == b.counters
    requires Ratio(b'.times.median, a'.times.median) == Ratio(b.times.median, a.times.median)
    ensures ScalingOf(a, b, scenario, formatId) == ScalingOf(a', b', scenario, formatId)
  {
  }

  lemma ScalingForScaled(c: real, run: Measures, other: Measures, scenario: string, formatId: string)
    requires c > 0.0 && Reported(run) && Reported(other) && Pairwise(run, other, ScaledBy(c))
    ensures ScalingFor(run, scenario, formatId) == ScalingFor(other, scenario, formatId)
  {
    SelectScaled(c, run, other, scenario, formatId);
    SortPairwise(Select(run, scenario, formatId), Select(other, scenario, formatId), LinesLe, ScaledBy(c));
    SeriesFrom(run, scenario, formatId);
    var s, t := Series(run, scenario, formatId), Series(other, scenario, formatId);
    if |s| >= 2 {
      var n := |s| - 1;
      assert ScaledBy(c)(s[0], t[0]) && ScaledBy(c)(s[n], t[n]);
      assert s[0] in s && s[n] in s;
      ScalingOfScaled(c, s[0], s[n], scenario, formatId);
    }
  }

  lemma {:induction false} ScalingFormatsScaled(c: real, run: Measures, other: Measures, scenario: string, formats: seq<string>)
    requires c > 0.0 && Reported(run) && Reported(other) && Pairwise(run, other, ScaledBy(c))
    ensures ScalingFormats(run, scenario, formats) == ScalingFormats(other, scenario, formats)
  {
    if formats != [] {
      ScalingForScaled(c, run, other, scenario, formats[0]);
      ScalingFormatsScaled(c, run, other, scenario, formats[1..]);
    }
  }

  lemma {:induction false} ScalingScenariosScaled(c: real, run: Measures, other: Measures, scenarios: seq<string>, formats: seq<string>)
    requires c > 0.0 && Reported(run) && Reported(other) && Pairwise(run, other, ScaledBy(c))
    ensures ScalingScenarios(run, scenarios, formats) == ScalingScenarios(other, scenarios, formats)
  {
    if scenarios != [] {
      ScalingFormatsScaled(c, run, other, scenarios[0], formats);
      ScalingScenariosScaled(c, run, other, scenarios[1..], formats);
    }
  }

  lemma ScaledReported(c: real, run: Measures)
    requires Reported(run)
    ensures Reported(ScaledRun(c, run))
  {
    var other := ScaledRun(c, run);
    forall m | m in other
      ensures m.nodes > 0
      ensures exists n :: n in run && (m.counters.Some? <==> n.counters.Some?)
    {
      var i :| 0 <= i < |other| && other[i] == m;
      assert run[i] in run;
    }
  }

  /** Running the same suite on a machine `1/c` times as fast gives the same growth findings. */
  lemma SpeedIndependence(c: real, run: Measures)
    requires c > 0.0 && Reported(run)
    ensures Reported(ScaledRun(c, run)) && Scaling(run) == Scaling(ScaledRun(c, run))
  {
    ScaledReported(c, run);
    var other := ScaledRun(c, run);
    assert ScenarioNames(run) == ScenarioNames(other) && FormatNames(run) == FormatNames(other);
    ScalingScenariosScaled(c, run, other, SortedSet(ScenarioNames(run)), SortedSet(FormatNames(run)));
  }

  // ----- the time checks are monotone ------------------------------------------------------

  /** As `a`, but not faster. */
  predicate Slower(a: Measure, b: Measure) {
    && b == a.(times := a.times.(median := b.times.median, p95 := b.times.p95))
    && a.times.median <= b.times.median && a.times.p95 <= b.times.p95
  }

  /** Times count nanoseconds and spreads are differences over medians. */
  predicate Timed(run: Measures, stored: Stored) {
    && (forall m <- run :: m.times.spread >= 0.0)
    && forall k <- stored.Keys :: stored[k].times.median >= 0.0 && stored[k].times.p95 >= 0.0
                                  && stored[k].times.spread >= 0.0
  }

  lemma RatioMonotone(a: real, a': real, b: real)
    requires a <= a' && b >= 0.0
    ensures NumLe(Ratio(a, b), Ratio(a', b))
  {
    if b > 0.0 {
      assert a / b <= a' / b;
    }
  }

  lemma UnitsMonotone(x: Num, y: Num, spread: real)
    requires NumLe(x, y) && spread >= 0.0
    ensures NumLe(Units(x, spread), Units(y, spread))
  {
    if spread > 0.0 && x.Fin? && y.Fin? {
      assert (x.r - 1.0) / spread <= (y.r - 1.0) / spread;
    }
  }

  lemma HotMonotone(a: Measure, b: Measure, before: Measure, tolerance: real, lower: real)
    requires Slower(a, b) && lower <= tolerance && Hot(a, before, tolerance)
    requires a.times.spread >= 0.0
    requires before.times.median >= 0.0 && before.times.p95 >= 0.0 && before.times.spread >= 0.0
    ensures Hot(b, before, lower)
  {
    RatioMonotone(a.times.median, b.times.median, before.times.median);
    RatioMonotone(a.times.p95, b.times.p95, before.times.p95);
    UnitsMonotone(Joint(a, before), Joint(b, before), before.times.spread + a.times.spread);
  }

  lemma {:induction false} HotPointsMonotone(xs: Measures, ys: Measures, stored: Stored, scenario: string,
                                             tolerance: real, lower: real)
    requires Pairwise(xs, ys, Slower) && Timed(xs, stored) && lower <= tolerance
    ensures HotPoints(xs, stored, scenario, tolerance) <= HotPoints(ys, stored, scenario, lower)
    ensures Points(xs, stored, scenario) == Points(ys, stored, scenario)
  {
    if xs != [] {
      assert Slower(xs[0], ys[0]);
      assert xs[0] in xs;
      if IsPoint(xs[0], stored, scenario) && Hot(xs[0], stored[xs[0].Key()], tolerance) {
        HotMonotone(xs[0], ys[0], stored[xs[0].Key()], tolerance, lower);
      }
      HotPointsMonotone(xs[1..], ys[1..], stored, scenario, tolerance, lower);
    }
  }

  predicate TimeFailure(run: Measures, stored: Stored, scenario: string, tolerance: real) {
    Regression(Sort(run, KeyLe), stored, scenario, tolerance)
  }

  lemma {:induction false} PointFindingsNeverFail(ms: Measures, stored: Stored, scenario: string, tolerance: real)
    ensures !Failing(PointFindings(ms, stored, scenario, tolerance))
  {
    if ms != [] {
      PointFindingsNeverFail(ms[1..], stored, scenario, tolerance);
    }
  }

  lemma {:induction false} HotWithinPoints(ms: Measures, stored: Stored, scenario: string, tolerance: real)
    ensures HotPoints(ms, stored, scenario, tolerance) <= Points(ms, stored, scenario)
  {
    if ms != [] {
      HotWithinPoints(ms[1..], stored, scenario, tolerance);
    }
  }

  lemma {:induction false} TimingScenariosFail(ms: Measures, stored: Stored, scenarios: seq<string>, tolerance: real)
    ensures Failing(TimingScenarios(ms, stored, scenarios, tolerance))
       <==> exists s <- scenarios :: Regression(ms, stored, s, tolerance)
  {
    if scenarios != [] {
      var s, rest := scenarios[0], scenarios[1..];
      TimingScenariosFail(ms, stored, rest, tolerance);
      PointFindingsNeverFail(ms, stored, s, tolerance);
      HotWithinPoints(ms, stored, s, tolerance);
      var points := PointFindings(ms, stored, s, tolerance);
      var verdict := Finding(TimingRegression, s + "|all", PassIf(!Regression(ms, stored, s, tolerance)), []);
      var tail := if Points(ms, stored, s) == 0 then [] else [verdict];
      FailingConcat(points, tail);
      assert verdict in [verdict];
      FailingConcat(points + tail, TimingScenarios(ms, stored, rest, tolerance));
      assert scenarios == [s] + rest;
    }
  }

  /** The time half fails exactly when some timed scenario has regressed. */
  lemma TimingFailsWhen(run: Measures, stored: Stored, tolerance: real)
    ensures Failing(Timing(run, stored, tolerance))
       <==> exists s <- TIMED_SCENARIOS :: TimeFailure(run, stored, s, tolerance)
  {
    TimingScenariosFail(Sort(run, KeyLe), stored, TIMED_SCENARIOS, tolerance);
    forall s | s in TIMED_SCENARIOS
      ensures TimeFailure(run, stored, s, tolerance) <==> Regression(Sort(run, KeyLe), stored, s, tolerance)
    {
    }
  }

  /** Getting slower, or lowering the tolerance, never turns a failing scenario, or a failing
      time half, into a passing one; zero baselines and zero spreads included. */
  lemma TimingMonotone(run: Measures, slower: Measures, stored: Stored, scenario: string, tolerance: real, lower: real)
    requires Pairwise(run, slower, Slower) && Timed(run, stored) && lower <= tolerance
    ensures TimeFailure(run, stored, scenario, tolerance) ==> TimeFailure(slower, stored, scenario, lower)
    ensures Failing(Timing(run, stored, tolerance)) ==> Failing(Timing(slower, stored, lower))
  {
    SortPairwise(run, slower, KeyLe, Slower);
    SortMembers(run, KeyLe);
    var xs, ys := Sort(run, KeyLe), Sort(slower, KeyLe);
    forall s ensures TimeFailure(run, stored, s, tolerance) ==> TimeFailure(slower, stored, s, lower) {
      HotPointsMonotone(xs, ys, stored, s, tolerance, lower);
    }
    TimingFailsWhen(run, stored, tolerance);
    TimingFailsWhen(slower, stored, lower);
  }

  // ----- a run against itself --------------------------------------------------------------

  predicate DistinctKeys(run: Measures) {
    forall i, j :: 0 <= i < j < |run| ==> run[i].Key() != run[j].Key()
  }

  function AsStored(run: Measures): (s: Stored) {
    if run == [] then map[] else AsStored(run[..|run| - 1])[run[|run| - 1].Key() := run[|run| - 1]]
  }

  lemma {:induction false} StoredLookup(run: Measures, m: Measure)
    requires DistinctKeys(run) && m in run
    ensures m.Key() in AsStored(run) && AsStored(run)[m.Key()] == m
  {
    var n := |run| - 1;
    var i :| 0 <= i < |run| && run[i] == m;
    if i < n {
      assert run[..n][i] == m;
      StoredLookup(run[..n], m);
      assert run[i].Key() != run[n].Key();
    }
  }

  /** A median and a p95 that are both zero: against itself such a point is infinitely slower. */
  predicate ZeroTimes(m: Measure) {
    m.times.median == 0.0 && m.times.p95 == 0.0
  }

  lemma SelfHot(m: Measure, tolerance: real)
    requires tolerance >= 0.0
    ensures Hot(m, m, tolerance) <==> ZeroTimes(m)
  {
    if m.times.median != 0.0 {
      assert m.times.median / m.times.median == 1.0;
    }
    if m.times.p95 != 0.0 {
      assert m.times.p95 / m.times.p95 == 1.0;
    }
  }

  lemma {:induction false} StructuralSelf(ms: Measures, stored: Stored)
    requires forall m <- ms :: m.Key() in stored && stored[m.Key()] == m
    ensures Failing(StructuralAll(ms, stored)) <==> Failing(StructuralAll(ms, map[]))
  {
    if ms != [] {
      StructuralSelf(ms[1..], stored);
      StructuralOne(ms[0], stored);
      FailingConcat(StructuralOf(ms[0], stored), StructuralAll(ms[1..], stored));
      FailingConcat(StructuralOf(ms[0], map[]), StructuralAll(ms[1..], map[]));
    }
  }

  lemma StructuralOne(m: Measure, stored: Stored)
    requires m.Key() in stored && stored[m.Key()] == m
    ensures Failing(StructuralOf(m, stored)) <==> Failing(StructuralOf(m, map[]))
  {
    if m.counters.Some? && m.phase == MUTATE {
      var c := m.counters.value;
      assert !Grown(c.affected, c.affected);
      var own := StructuralOf(m, map[]);
      var extra := [Finding(CounterGrowth, m.Key(), Pass, [Fin(c.affected), Fin(c.affected)])];
      assert StructuralOf(m, stored) == own + extra;
      FailingConcat(own, extra);
    }
  }

  function ZeroPoints(ms: Measures, scenario: string): nat {
    if ms == [] then 0
    else (if ms[0].scenario == scenario && ZeroTimes(ms[0]) then 1 else 0) + ZeroPoints(ms[1..], scenario)
  }

  function ScenarioPointsOf(ms: Measures, scenario: string): nat {
    if ms == [] then 0 else (if ms[0].scenario == scenario then 1 else 0) + ScenarioPointsOf(ms[1..], scenario)
  }

  /** Enough corpora of a timed scenario report zero times. */
  predicate Degenerate(run: Measures) {
    exists s <- TIMED_SCENARIOS ::
      Stable(ZeroPoints(Sort(run, KeyLe), s), ScenarioPointsOf(Sort(run, KeyLe), s))
  }

  lemma {:induction false} SelfPoints(ms: Measures, stored: Stored, scenario: string, tolerance: real)
    requires tolerance >= 0.0 && forall m <- ms :: m.Key() in stored && stored[m.Key()] == m
    ensures HotPoints(ms, stored, scenario, tolerance) == ZeroPoints(ms, scenario)
    ensures Points(ms, stored, scenario) == ScenarioPointsOf(ms, scenario)
  {
    if ms != [] {
      assert ms[0] in ms;
      SelfHot(ms[0], tolerance);
      SelfPoints(ms[1..], stored, scenario, tolerance);
    }
  }

  /** The findings of a run against itself fail exactly when its own checks do, the ones that
      need no baseline, or a timed scenario is degenerate. */
  lemma SelfComparison(run: Measures, tolerance: real)
    requires DistinctKeys(run) && tolerance >= 0.0
    ensures Failing(Structural(run, AsStored(run))) <==> Failing(Structural(run, map[]))
    ensures Failing(Timing(run, AsStored(run), tolerance)) <==> Degenerate(run)
  {
    var ms, stored := Sort(run, KeyLe), AsStored(run);
    SortMembers(run, KeyLe);
    forall m | m in ms ensures m.Key() in stored && stored[m.Key()] == m {
      StoredLookup(run, m);
    }
    StructuralSelf(ms, stored);
    TimingFailsWhen(run, stored, tolerance);
    forall s | s in TIMED_SCENARIOS
      ensures TimeFailure(run, stored, s, tolerance) <==> Stable(ZeroPoints(ms, s), ScenarioPointsOf(ms, s))
    {
      SelfPoints(ms, stored, s, tolerance);
    }
  }

  lemma {:induction false} PositiveTimesNotDegenerate(ms: Measures, s: string)
    requires forall m <- ms :: m.times.median > 0.0
    ensures ZeroPoints(ms, s) == 0
  {
    if ms != [] {
      assert ms[0] in ms;
      PositiveTimesNotDegenerate(ms[1..], s);
    }
  }
}

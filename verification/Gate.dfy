/** The benchmark gate of benchmarks/gate.py: findings from structural counters, from growth
    inside one run, and from times against a stored baseline, and the verdict drawn from them. */
module Gate {
  import opened SeqLaws
  import opened Wrappers
  import opened Sorting

  const STABILITY_FRACTION := 0.8
  const STABILITY_MIN_POINTS := 2
  const TIMING_NOISE_FACTOR := 2.0
  const LOCALITY_RATIO_LIMIT := 0.05
  const STRUCTURAL_TOLERANCE := 0.25
  const STRUCTURAL_MIN_DELTA := 2.0
  const LOCAL_SCALING_LIMIT := 1.5
  const DOCUMENT_SCALING_SLACK := 2.5
  const MUTATE := "mutate"
  const TIMED_SCENARIOS: seq<string> := ["load_parse", "query_select", "save_publish", "load_tree_decode"]

  /** What the instrumentation counted; absent while it is off. */
  datatype Counters = Counters(affected: real, isLocal: bool, markers: seq<string>)

  datatype Times = Times(median: real, p95: real, least: real, spread: real)

  /** One measurement, reported under the key `scenario|corpus`. */
  datatype Measure = Measure(scenario: string, corpus: string, phase: string, formatId: string, nodes: nat,
                             bytes: nat, lines: nat, counters: Option<Counters>, times: Times)
  {
    function Key(): string {
      scenario + "|" + corpus
    }
  }

  /** A run lists its measurements in the order they were reported. */
  type Measures = seq<Measure>

  type Stored = map<string, Measure>

  datatype Check = Instrumentation | Markers | Locality | CounterGrowth | LocalScaling | DocumentScaling
                 | TimingPoint | TimingRegression | ProfileMatch

  datatype Status = Pass | Fail | Advisory | Regressed | Fine

  datatype Finding = Finding(check: Check, key: string, status: Status, observed: seq<Num>)

  // ----- numbers with an infinity ----------------------------------------------------------

  /** Ratios: a zero denominator gives infinity. */
  datatype Num = Fin(r: real) | Inf

  predicate NumLe(a: Num, b: Num) {
    b.Inf? || (a.Fin? && a.r <= b.r)
  }

  function NumMin(a: Num, b: Num): Num {
    if NumLe(a, b) then a else b
  }

  function Ratio(a: real, b: real): Num {
    if b == 0.0 then Inf else Fin(a / b)
  }

  function PassIf(ok: bool): Status {
    if ok then Pass else Fail
  }

  // ----- structural findings ---------------------------------------------------------------

  predicate KeyLe(a: Measure, b: Measure) {
    StringLe(a.Key(), b.Key())
  }

  function LocalityRatio(m: Measure, c: Counters): real {
    if m.nodes == 0 then 1.0 else c.affected / (m.nodes as real)
  }

  /** The counter has grown by at least the minimum and beyond the tolerance. */
  predicate Grown(now: real, before: real) {
    now - before >= STRUCTURAL_MIN_DELTA && now > before * (1.0 + STRUCTURAL_TOLERANCE)
  }

  function StructuralOf(m: Measure, stored: Stored): seq<Finding> {
    match m.counters
    case None => [Finding(Instrumentation, m.Key(), Fail, [])]
    case Some(c) =>
      if m.phase != MUTATE then []
      else
        [Finding(Markers, m.Key(), PassIf(c.isLocal), []),
         Finding(Locality, m.Key(), PassIf(LocalityRatio(m, c) <= LOCALITY_RATIO_LIMIT), [Fin(LocalityRatio(m, c))])]
        + if m.Key() !in stored || stored[m.Key()].counters.None? then []
          else
            var before := stored[m.Key()].counters.value.affected;
            [Finding(CounterGrowth, m.Key(), PassIf(!Grown(c.affected, before)), [Fin(c.affected), Fin(before)])]
  }

  function StructuralAll(ms: Measures, stored: Stored): seq<Finding> {
    if ms == [] then [] else StructuralOf(ms[0], stored) + StructuralAll(ms[1..], stored)
  }

  function Structural(run: Measures, stored: Stored): seq<Finding> {
    StructuralAll(Sort(run, KeyLe), stored)
  }

  // ----- growth inside one run -------------------------------------------------------------

  predicate LinesLe(a: Measure, b: Measure) {
    a.lines <= b.lines
  }

  function Select(run: Measures, scenario: string, formatId: string): Measures {
    if run == [] then []
    else (if run[0].scenario == scenario && run[0].formatId == formatId then [run[0]] else [])
         + Select(run[1..], scenario, formatId)
  }

  function Series(run: Measures, scenario: string, formatId: string): Measures {
    Sort(Select(run, scenario, formatId), LinesLe)
  }

  /** Every document has a node, and the instrumentation is on for all of a run or for none:
      what a report of the suite satisfies and the growth checks divide by. */
  predicate Reported(run: Measures) {
    && (forall m <- run :: m.nodes > 0)
    && forall m, n :: m in run && n in run ==> (m.counters.Some? <==> n.counters.Some?)
  }

  function ScalingOf(small: Measure, large: Measure, scenario: string, formatId: string): seq<Finding>
    requires small.nodes > 0 && (small.counters.Some? <==> large.counters.Some?)
  {
    var key := scenario + "|" + formatId;
    var growth := large.nodes as real / small.nodes as real;
    if small.phase == MUTATE then
      if small.counters.None? || small.counters.value.affected == 0.0 then []
      else
        var ratio := large.counters.value.affected / small.counters.value.affected;
        [Finding(LocalScaling, key, PassIf(ratio <= LOCAL_SCALING_LIMIT), [Fin(ratio)])]
    else
      var ratio := Ratio(large.times.median, small.times.median);
      var limit := growth * DOCUMENT_SCALING_SLACK;
      [Finding(DocumentScaling, key, PassIf(NumLe(ratio, Fin(limit))), [ratio, Fin(limit)])]
  }

  lemma SeriesFrom(run: Measures, scenario: string, formatId: string)
    ensures forall m <- Series(run, scenario, formatId) :: m in run
  {
    SortMembers(Select(run, scenario, formatId), LinesLe);
    SelectFrom(run, scenario, formatId);
  }

  lemma {:induction false} SelectFrom(run: Measures, scenario: string, formatId: string)
    ensures forall m <- Select(run, scenario, formatId) :: m in run
  {
    if run != [] {
      SelectFrom(run[1..], scenario, formatId);
    }
  }

  function ScalingFor(run: Measures, scenario: string, formatId: string): seq<Finding>
    requires Reported(run)
  {
    SeriesFrom(run, scenario, formatId);
    var series := Series(run, scenario, formatId);
    if |series| < 2 || series[0].lines == series[|series| - 1].lines then []
    else
      assert series[0] in series && series[|series| - 1] in series;
      ScalingOf(series[0], series[|series| - 1], scenario, formatId)
  }

  function ScalingFormats(run: Measures, scenario: string, formats: seq<string>): seq<Finding>
    requires Reported(run)
  {
    if formats == [] then [] else ScalingFor(run, scenario, formats[0]) + ScalingFormats(run, scenario, formats[1..])
  }

  function ScalingScenarios(run: Measures, scenarios: seq<string>, formats: seq<string>): seq<Finding>
    requires Reported(run)
  {
    if scenarios == [] then []
    else ScalingFormats(run, scenarios[0], formats) + ScalingScenarios(run, scenarios[1..], formats)
  }

  function ScenarioNames(run: Measures): (names: seq<string>)
    ensures |names| == |run|
  {
    seq(|run|, i requires 0 <= i < |run| => run[i].scenario)
  }

  function FormatNames(run: Measures): (names: seq<string>)
    ensures |names| == |run|
  {
    seq(|run|, i requires 0 <= i < |run| => run[i].formatId)
  }

  function Scaling(run: Measures): seq<Finding>
    requires Reported(run)
  {
    ScalingScenarios(run, SortedSet(ScenarioNames(run)), SortedSet(FormatNames(run)))
  }

  // ----- times against the baseline --------------------------------------------------------

  /** The smaller of the two ratios: both must have grown for it to have grown. */
  function Joint(m: Measure, before: Measure): Num {
    NumMin(Ratio(m.times.median, before.times.median), Ratio(m.times.p95, before.times.p95))
  }

  predicate Over(joint: Num, tolerance: real) {
    joint.Inf? || joint.r > 1.0 + tolerance
  }

  /** The excess in units of the spread measured within the two runs. */
  function Units(joint: Num, spread: real): Num {
    if spread == 0.0 || joint.Inf? then Inf else Fin((joint.r - 1.0) / spread)
  }

  predicate Hot(m: Measure, before: Measure, tolerance: real) {
    var joint := Joint(m, before);
    Over(joint, tolerance) && !NumLe(Units(joint, before.times.spread + m.times.spread), Fin(TIMING_NOISE_FACTOR))
  }

  function PointOf(m: Measure, before: Measure, tolerance: real): Finding {
    Finding(TimingPoint, m.Key(),
            if Hot(m, before, tolerance) then Regressed else if Over(Joint(m, before), tolerance) then Advisory else Fine,
            [Ratio(m.times.median, before.times.median), Ratio(m.times.p95, before.times.p95),
             Units(Joint(m, before), before.times.spread + m.times.spread)])
  }

  predicate IsPoint(m: Measure, stored: Stored, scenario: string) {
    m.scenario == scenario && m.Key() in stored
  }

  function Points(ms: Measures, stored: Stored, scenario: string): nat {
    if ms == [] then 0 else (if IsPoint(ms[0], stored, scenario) then 1 else 0) + Points(ms[1..], stored, scenario)
  }

  function HotPoints(ms: Measures, stored: Stored, scenario: string, tolerance: real): nat {
    if ms == [] then 0
    else (if IsPoint(ms[0], stored, scenario) && Hot(ms[0], stored[ms[0].Key()], tolerance) then 1 else 0)
         + HotPoints(ms[1..], stored, scenario, tolerance)
  }

  function PointFindings(ms: Measures, stored: Stored, scenario: string, tolerance: real): seq<Finding> {
    if ms == [] then []
    else (if IsPoint(ms[0], stored, scenario) then [PointOf(ms[0], stored[ms[0].Key()], tolerance)] else [])
         + PointFindings(ms[1..], stored, scenario, tolerance)
  }

  /** Enough corpora agree: at least two, and four fifths of them. */
  predicate Stable(hot: nat, points: nat) {
    hot >= STABILITY_MIN_POINTS && hot as real >= STABILITY_FRACTION * (points as real)
  }

  predicate Regression(run: Measures, stored: Stored, scenario: string, tolerance: real) {
    Stable(HotPoints(run, stored, scenario, tolerance), Points(run, stored, scenario))
  }

  function TimingFor(ms: Measures, stored: Stored, scenario: string, tolerance: real): seq<Finding> {
    PointFindings(ms, stored, scenario, tolerance)
    + if Points(ms, stored, scenario) == 0 then []
      else [Finding(TimingRegression, scenario + "|all", PassIf(!Regression(ms, stored, scenario, tolerance)), [])]
  }

  function TimingScenarios(ms: Measures, stored: Stored, scenarios: seq<string>, tolerance: real): seq<Finding> {
    if scenarios == [] then []
    else TimingFor(ms, stored, scenarios[0], tolerance) + TimingScenarios(ms, stored, scenarios[1..], tolerance)
  }

  function Timing(run: Measures, stored: Stored, tolerance: real): seq<Finding> {
    TimingScenarios(Sort(run, KeyLe), stored, TIMED_SCENARIOS, tolerance)
  }

  // ----- the loops that collect the findings -----------------------------------------------

  method StructuralFindings(run: Measures, stored: Stored) returns (findings: seq<Finding>)
    ensures findings == Structural(run, stored)
  {
    var ordered := Sort(run, KeyLe);
    findings := [];
    var i := 0;
    while i < |ordered|
      invariant 0 <= i <= |ordered|
      invariant findings + StructuralAll(ordered[i..], stored) == Structural(run, stored)
    {
      assert ordered[i..][1..] == ordered[i + 1..];
      Assoc(findings, StructuralOf(ordered[i], stored), StructuralAll(ordered[i + 1..], stored));
      findings := findings + StructuralOf(ordered[i], stored);
      i := i + 1;
    }
  }

  method FormatFindings(run: Measures, scenario: string, formats: seq<string>) returns (findings: seq<Finding>)
    requires Reported(run)
    ensures findings == ScalingFormats(run, scenario, formats)
  {
    findings := [];
    var j := 0;
    while j < |formats|
      invariant 0 <= j <= |formats|
      invariant findings + ScalingFormats(run, scenario, formats[j..]) == ScalingFormats(run, scenario, formats)
    {
      assert formats[j..][1..] == formats[j + 1..];
      Assoc(findings, ScalingFor(run, scenario, formats[j]), ScalingFormats(run, scenario, formats[j + 1..]));
      findings := findings + ScalingFor(run, scenario, formats[j]);
      j := j + 1;
    }
  }

  method AllFormatFindings(run: Measures, scenarios: seq<string>, formats: seq<string>)
    returns (findings: seq<Finding>)
    requires Reported(run)
    ensures findings == ScalingScenarios(run, scenarios, formats)
  {
    findings := [];
    var i := 0;
    assert scenarios[0..] == scenarios;
    while i < |scenarios|
      invariant 0 <= i <= |scenarios|
      invariant findings + ScalingScenarios(run, scenarios[i..], formats) == ScalingScenarios(run, scenarios, formats)
    {
      assert scenarios[i..][1..] == scenarios[i + 1..];
      var here := FormatFindings(run, scenarios[i], formats);
      Assoc(findings, here, ScalingScenarios(run, scenarios[i + 1..], formats));
      findings := findings + here;
      i := i + 1;
    }
  }

  /** Growth inside one run: every scenario and format that occurs, in order. */
  method ScalingFindings(run: Measures) returns (findings: seq<Finding>)
    requires Reported(run)
    ensures findings == Scaling(run)
  {
    findings := AllFormatFindings(run, SortedSet(ScenarioNames(run)), SortedSet(FormatNames(run)));
  }

  /** The points of one scenario: their findings, how many there are and how many are hot. */
  method ScenarioPoints(ordered: Measures, stored: Stored, scenario: string, tolerance: real)
    returns (findings: seq<Finding>, hot: nat, points: nat)
    ensures findings == PointFindings(ordered, stored, scenario, tolerance)
    ensures hot == HotPoints(ordered, stored, scenario, tolerance) && points == Points(ordered, stored, scenario)
  {
    findings, hot, points := [], 0, 0;
    var i := 0;
    while i < |ordered|
      invariant 0 <= i <= |ordered|
      invariant findings + PointFindings(ordered[i..], stored, scenario, tolerance)
             == PointFindings(ordered, stored, scenario, tolerance)
      invariant hot + HotPoints(ordered[i..], stored, scenario, tolerance)
             == HotPoints(ordered, stored, scenario, tolerance)
      invariant points + Points(ordered[i..], stored, scenario) == Points(ordered, stored, scenario)
    {
      assert ordered[i..][1..] == ordered[i + 1..];
      var m := ordered[i];
      if IsPoint(m, stored, scenario) {
        if Hot(m, stored[m.Key()], tolerance) {
          hot := hot + 1;
        }
        points := points + 1;
        findings := findings + [PointOf(m, stored[m.Key()], tolerance)];
      }
      i := i + 1;
    }
  }

  /** One scenario: its points, then the finding over all of them, if there are any. */
  method ScenarioFindings(ordered: Measures, stored: Stored, scenario: string, tolerance: real)
    returns (findings: seq<Finding>)
    ensures findings == TimingFor(ordered, stored, scenario, tolerance)
  {
    var points, hot, count := ScenarioPoints(ordered, stored, scenario, tolerance);
    findings := points;
    if count > 0 {
      findings := findings + [Finding(TimingRegression, scenario + "|all", PassIf(!Stable(hot, count)), [])];
    }
  }

  method AllScenarioFindings(ordered: Measures, stored: Stored, scenarios: seq<string>, tolerance: real)
    returns (findings: seq<Finding>)
    ensures findings == TimingScenarios(ordered, stored, scenarios, tolerance)
  {
    findings := [];
    var i := 0;
    assert scenarios[0..] == scenarios;
    while i < |scenarios|
      invariant 0 <= i <= |scenarios|
      invariant findings + TimingScenarios(ordered, stored, scenarios[i..], tolerance)
             == TimingScenarios(ordered, stored, scenarios, tolerance)
    {
      assert scenarios[i..][1..] == scenarios[i + 1..];
      var more := ScenarioFindings(ordered, stored, scenarios[i], tolerance);
      Assoc(findings, more, TimingScenarios(ordered, stored, scenarios[i + 1..], tolerance));
      findings := findings + more;
      i := i + 1;
    }
  }

  /** The time half: every timed scenario in turn, over the measurements in order of their keys. */
  method TimingFindings(run: Measures, stored: Stored, tolerance: real) returns (findings: seq<Finding>)
    ensures findings == Timing(run, stored, tolerance)
  {
    findings := AllScenarioFindings(Sort(run, KeyLe), stored, TIMED_SCENARIOS, tolerance);
  }
}

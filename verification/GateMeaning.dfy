/** What the gate's findings and verdicts say about a run, in terms of its measurements: when each
    half fails, and when the gate passes. */
module GateMeaning {
  import opened Gate
  import opened GateLaws
  import opened GateRuns
  import PyText
  import opened SeqLaws
  import opened Sorting
  import opened Wrappers

  // ----- the structural half ---------------------------------------------------------------

  /** The operation touched more than a twentieth of the nodes. */
  predicate TooWide(m: Measure, c: Counters) {
    m.nodes == 0 || c.affected > 0.05 * (m.nodes as real)
  }

  /** The baseline's counter was exceeded by two nodes and by a quarter. */
  predicate GrownSince(m: Measure, c: Counters, stored: Stored) {
    m.Key() in stored && stored[m.Key()].counters.Some? &&
    var before := stored[m.Key()].counters.value.affected;
    c.affected >= before + 2.0 && c.affected > before + 0.25 * before
  }

  /** A measurement without counters, or an edit that raises a marker, is too wide or has grown. */
  predicate Breaks(m: Measure, stored: Stored) {
    match m.counters
    case None => true
    case Some(c) => m.phase == "mutate" && (!c.isLocal || TooWide(m, c) || GrownSince(m, c, stored))
  }

  lemma RatioBound(a: real, n: real, limit: real)
    requires n > 0.0
    ensures a / n <= limit <==> a <= limit * n
  {
    var q := a / n;
    assert q * n == a;
    if q <= limit {
      TimesKeepsLess(q, limit, n);
    } else {
      TimesKeepsLess(limit, q, n);
      TimesStrict(limit, q, n);
    }
  }

  lemma TimesKeepsLess(x: real, y: real, n: real)
    requires x <= y && n > 0.0
    ensures x * n <= y * n
  {
  }

  lemma TimesStrict(x: real, y: real, n: real)
    requires x < y && n > 0.0
    ensures x * n < y * n
  {
  }

  lemma LocalityMeaning(m: Measure, c: Counters)
    ensures LocalityRatio(m, c) <= LOCALITY_RATIO_LIMIT <==> !TooWide(m, c)
  {
    if m.nodes > 0 {
      RatioBound(c.affected, m.nodes as real, LOCALITY_RATIO_LIMIT);
    }
  }

  lemma GrownMeaning(now: real, before: real)
    ensures Grown(now, before) <==> now >= before + STRUCTURAL_MIN_DELTA && now > before + STRUCTURAL_TOLERANCE * before
  {
  }

  lemma FailingTwo(x: Finding, y: Finding, rest: seq<Finding>)
    ensures Failing([x, y] + rest) <==> x.status == Fail || y.status == Fail || Failing(rest)
  {
    FailingConcat([x, y], rest);
    assert x in [x, y] && y in [x, y];
  }

  lemma FailingOne(x: Finding)
    ensures Failing([x]) <==> x.status == Fail
  {
    assert x in [x];
  }

  lemma MeasureFails(m: Measure, stored: Stored)
    ensures Failing(StructuralOf(m, stored)) <==> Breaks(m, stored)
  {
    var fs := StructuralOf(m, stored);
    match m.counters {
      case None => FailingOne(fs[0]);
      case Some(c) =>
        if m.phase == MUTATE {
          LocalityMeaning(m, c);
          assert fs == [fs[0], fs[1]] + fs[2..];
          FailingTwo(fs[0], fs[1], fs[2..]);
          if m.Key() in stored && stored[m.Key()].counters.Some? {
            GrownMeaning(c.affected, stored[m.Key()].counters.value.affected);
            assert fs[2..] == [fs[2]];
            FailingOne(fs[2]);
          } else {
            assert fs[2..] == [];
          }
        }
    }
  }

  lemma {:induction false} MeasuresFail(ms: Measures, stored: Stored)
    ensures Failing(StructuralAll(ms, stored)) <==> exists m <- ms :: Breaks(m, stored)
  {
    if ms != [] {
      MeasureFails(ms[0], stored);
      MeasuresFail(ms[1..], stored);
      FailingConcat(StructuralOf(ms[0], stored), StructuralAll(ms[1..], stored));
      HeadTail(ms);
    }
  }

  /** The structural half fails exactly when some measurement breaks it. */
  lemma StructuralFailsWhen(run: Measures, stored: Stored)
    ensures Failing(Structural(run, stored)) <==> exists m <- run :: Breaks(m, stored)
  {
    MeasuresFail(Sort(run, KeyLe), stored);
    SortMembers(run, KeyLe);
  }

  // ----- growth inside one run -------------------------------------------------------------

  /** From the smaller document to the larger: an edit that touches more than half as many nodes
      again, or a whole-document scenario that grows two and a half times as fast as the
      document. */
  predicate TooSteep(small: Measure, large: Measure)
    requires small.nodes > 0 && (small.counters.Some? <==> large.counters.Some?)
  {
    if small.phase == "mutate" then
      && small.counters.Some? && small.counters.value.affected != 0.0
      && large.counters.value.affected > 1.5 * small.counters.value.affected
    else
      || small.times.median == 0.0
      || large.times.median > (large.nodes as real / small.nodes as real) * 2.5 * small.times.median
  }

  /** Counters count, and times have passed. */
  predicate Counted(run: Measures) {
    forall m <- run :: m.times.median >= 0.0 && (m.counters.Some? ==> m.counters.value.affected >= 0.0)
  }

  lemma PairSteep(small: Measure, large: Measure, scenario: string, formatId: string)
    requires small.nodes > 0 && (small.counters.Some? <==> large.counters.Some?) && Counted([small, large])
    ensures Failing(ScalingOf(small, large, scenario, formatId)) <==> TooSteep(small, large)
  {
    assert small in [small, large] && large in [small, large];
    var fs := ScalingOf(small, large, scenario, formatId);
    if small.phase == MUTATE {
      if small.counters.Some? && small.counters.value.affected != 0.0 {
        RatioBound(large.counters.value.affected, small.counters.value.affected, LOCAL_SCALING_LIMIT);
        FailingOne(fs[0]);
      }
    } else {
      if small.times.median != 0.0 {
        RatioBound(large.times.median, small.times.median,
                   (large.nodes as real / small.nodes as real) * DOCUMENT_SCALING_SLACK);
      }
      FailingOne(fs[0]);
    }
  }

  predicate LinesRise(ms: Measures) {
    forall i, j :: 0 <= i <= j < |ms| ==> ms[i].lines <= ms[j].lines
  }

  lemma LinesPreorder()
    ensures TotalPreorder(LinesLe)
  {
  }

  lemma SeriesRises(run: Measures, scenario: string, formatId: string)
    ensures LinesRise(Series(run, scenario, formatId))
  {
    var sel := Select(run, scenario, formatId);
    LinesPreorder();
    SortSorted(sel, LinesLe);
    var s := Series(run, scenario, formatId);
    forall i, j | 0 <= i <= j < |s| ensures s[i].lines <= s[j].lines {
      assert i == j || LinesLe(s[i], s[j]);
    }
  }

  lemma {:induction false} SelectIs(run: Measures, scenario: string, formatId: string)
    ensures forall m :: m in Select(run, scenario, formatId)
                    <==> m in run && m.scenario == scenario && m.formatId == formatId
  {
    if run != [] {
      SelectIs(run[1..], scenario, formatId);
      HeadTail(run);
    }
  }

  /** The series of a scenario and format holds its measurements, from the smallest document to
      the largest. */
  lemma SeriesIs(run: Measures, scenario: string, formatId: string)
    ensures var s := Series(run, scenario, formatId);
            && LinesRise(s)
            && forall m :: m in s <==> m in run && m.scenario == scenario && m.formatId == formatId
  {
    SeriesRises(run, scenario, formatId);
    SortMembers(Select(run, scenario, formatId), LinesLe);
    SelectIs(run, scenario, formatId);
  }

  /** The smallest and the largest document of a scenario and format differ in size, and the
      growth between them is too steep. */
  predicate Steep(run: Measures, scenario: string, formatId: string)
    requires Reported(run)
  {
    SeriesFrom(run, scenario, formatId);
    var s := Series(run, scenario, formatId);
    |s| >= 2 && s[0].lines < s[|s| - 1].lines
    && assert s[0] in s && s[|s| - 1] in s; TooSteep(s[0], s[|s| - 1])
  }

  lemma SeriesSteep(run: Measures, scenario: string, formatId: string)
    requires Reported(run) && Counted(run)
    ensures Failing(ScalingFor(run, scenario, formatId)) <==> Steep(run, scenario, formatId)
  {
    SeriesFrom(run, scenario, formatId);
    SeriesRises(run, scenario, formatId);
    var s := Series(run, scenario, formatId);
    if |s| >= 2 {
      assert s[0] in s && s[|s| - 1] in s;
      PairSteep(s[0], s[|s| - 1], scenario, formatId);
    }
  }

  predicate SomeSteep(run: Measures, scenario: string, formats: seq<string>)
    requires Reported(run)
  {
    exists f <- formats :: Steep(run, scenario, f)
  }

  lemma {:induction false} FormatsSteep(run: Measures, scenario: string, formats: seq<string>)
    requires Reported(run) && Counted(run)
    ensures Failing(ScalingFormats(run, scenario, formats)) <==> SomeSteep(run, scenario, formats)
  {
    if formats != [] {
      SeriesSteep(run, scenario, formats[0]);
      FormatsSteep(run, scenario, formats[1..]);
      FailingConcat(ScalingFor(run, scenario, formats[0]), ScalingFormats(run, scenario, formats[1..]));
      HeadTail(formats);
    }
  }

  lemma {:induction false} ScenariosSteep(run: Measures, scenarios: seq<string>, formats: seq<string>)
    requires Reported(run) && Counted(run)
    ensures Failing(ScalingScenarios(run, scenarios, formats))
       <==> exists s <- scenarios :: SomeSteep(run, s, formats)
  {
    if scenarios != [] {
      FormatsSteep(run, scenarios[0], formats);
      ScenariosSteep(run, scenarios[1..], formats);
      FailingConcat(ScalingFormats(run, scenarios[0], formats), ScalingScenarios(run, scenarios[1..], formats));
      HeadTail(scenarios);
    }
  }

  /** A steep series has measurements, so its scenario and format are among the names. */
  lemma SteepNames(run: Measures, scenario: string, formatId: string)
    requires Reported(run) && Steep(run, scenario, formatId)
    ensures scenario in ScenarioNames(run) && formatId in FormatNames(run)
  {
    SeriesIs(run, scenario, formatId);
    var m := Series(run, scenario, formatId)[0];
    var i :| 0 <= i < |run| && run[i] == m;
    assert ScenarioNames(run)[i] == scenario && FormatNames(run)[i] == formatId;
  }

  /** The growth checks fail exactly when some scenario and format are too steep. */
  lemma ScalingFailsWhen(run: Measures)
    requires Reported(run) && Counted(run)
    ensures Failing(Scaling(run)) <==> exists s, f :: Steep(run, s, f)
  {
    var scenarios, formats := SortedSet(ScenarioNames(run)), SortedSet(FormatNames(run));
    ScenariosSteep(run, scenarios, formats);
    SortedSetAscending(ScenarioNames(run));
    SortedSetAscending(FormatNames(run));
    forall s, f | Steep(run, s, f) ensures s in scenarios && SomeSteep(run, s, formats) {
      SteepNames(run, s, f);
      assert f in formats;
    }
  }

  // ----- times against the baseline --------------------------------------------------------

  /** Median and p95 are both more than `1 + excess` times what they were. */
  predicate BothBeyond(m: Measure, before: Measure, excess: real) {
    && m.times.median > (1.0 + excess) * before.times.median
    && m.times.p95 > (1.0 + excess) * before.times.p95
  }

  lemma JointBeyond(m: Measure, before: Measure, excess: real)
    requires before.times.median > 0.0 && before.times.p95 > 0.0
    ensures Joint(m, before).Fin? && (Joint(m, before).r > 1.0 + excess <==> BothBeyond(m, before, excess))
  {
    RatioBound(m.times.median, before.times.median, 1.0 + excess);
    RatioBound(m.times.p95, before.times.p95, 1.0 + excess);
  }

  /** Against a baseline of positive times a point is hot exactly when median and p95 both exceed
      the tolerance and both exceed twice the spread measured within the two runs. */
  lemma HotMeaning(m: Measure, before: Measure, tolerance: real)
    requires before.times.median > 0.0 && before.times.p95 > 0.0
    requires tolerance >= 0.0 && before.times.spread >= 0.0 && m.times.spread >= 0.0
    ensures Hot(m, before, tolerance) <==>
              BothBeyond(m, before, tolerance)
              && BothBeyond(m, before, 2.0 * (before.times.spread + m.times.spread))
  {
    var spread := before.times.spread + m.times.spread;
    var joint := Joint(m, before);
    JointBeyond(m, before, tolerance);
    JointBeyond(m, before, TIMING_NOISE_FACTOR * spread);
    if spread > 0.0 {
      RatioBound(joint.r - 1.0, spread, TIMING_NOISE_FACTOR);
    }
  }

  /** What a point reports: whether it is hot, or beyond the tolerance but within the noise, or fine;
      and how many times the baseline median and p95 are taken. */
  lemma PointMeaning(m: Measure, before: Measure, tolerance: real)
    requires before.times.median > 0.0 && before.times.p95 > 0.0
    requires tolerance >= 0.0 && before.times.spread >= 0.0 && m.times.spread >= 0.0
    ensures var f := PointOf(m, before, tolerance);
            var beyond := BothBeyond(m, before, tolerance);
            var noise := !BothBeyond(m, before, 2.0 * (before.times.spread + m.times.spread));
            && f.check == TimingPoint && f.key == m.Key() && |f.observed| == 3
            && f.status == (if beyond && !noise then Regressed else if beyond then Advisory else Fine)
            && f.observed[0].Fin? && f.observed[0].r * before.times.median == m.times.median
            && f.observed[1].Fin? && f.observed[1].r * before.times.p95 == m.times.p95
  {
    JointBeyond(m, before, tolerance);
    HotMeaning(m, before, tolerance);
    Quotient(m.times.median, before.times.median);
    Quotient(m.times.p95, before.times.p95);
  }

  lemma Quotient(a: real, b: real)
    requires b != 0.0
    ensures (a / b) * b == a
  {
  }

  lemma {:induction false} InsertHot(m: Measure, ms: Measures, stored: Stored, scenario: string, tolerance: real)
    ensures var one := Insert(m, ms, KeyLe);
            && HotPoints(one, stored, scenario, tolerance) == HotPoints([m] + ms, stored, scenario, tolerance)
            && Points(one, stored, scenario) == Points([m] + ms, stored, scenario)
  {
    assert ([m] + ms)[1..] == ms;
    if ms != [] && !KeyLe(m, ms[0]) {
      InsertHot(m, ms[1..], stored, scenario, tolerance);
      assert ([m] + ms[1..])[1..] == ms[1..];
      var rest := Insert(m, ms[1..], KeyLe);
      assert ([ms[0]] + rest)[1..] == rest;
    }
  }

  lemma {:induction false} SortHot(ms: Measures, stored: Stored, scenario: string, tolerance: real)
    ensures HotPoints(Sort(ms, KeyLe), stored, scenario, tolerance) == HotPoints(ms, stored, scenario, tolerance)
    ensures Points(Sort(ms, KeyLe), stored, scenario) == Points(ms, stored, scenario)
  {
    if ms != [] {
      SortHot(ms[1..], stored, scenario, tolerance);
      InsertHot(ms[0], Sort(ms[1..], KeyLe), stored, scenario, tolerance);
      assert ([ms[0]] + Sort(ms[1..], KeyLe))[1..] == Sort(ms[1..], KeyLe);
    }
  }

  /** A timed scenario has regressed exactly when two of its corpora at least, and four fifths of
      those that the baseline knows, are hot; in whatever order the run lists them. */
  lemma RegressionWhen(run: Measures, stored: Stored, scenario: string, tolerance: real)
    ensures TimeFailure(run, stored, scenario, tolerance) <==>
              && HotPoints(run, stored, scenario, tolerance) >= 2
              && 5 * HotPoints(run, stored, scenario, tolerance) >= 4 * Points(run, stored, scenario)
  {
    SortHot(run, stored, scenario, tolerance);
  }

  // ----- a run that fails against itself ---------------------------------------------------

  lemma {:induction false} InsertPoints(m: Measure, ms: Measures, scenario: string)
    ensures var one := Insert(m, ms, KeyLe);
            && ZeroPoints(one, scenario) == ZeroPoints([m] + ms, scenario)
            && ScenarioPointsOf(one, scenario) == ScenarioPointsOf([m] + ms, scenario)
  {
    assert ([m] + ms)[1..] == ms;
    if ms != [] && !KeyLe(m, ms[0]) {
      InsertPoints(m, ms[1..], scenario);
      assert ([m] + ms[1..])[1..] == ms[1..];
      var rest := Insert(m, ms[1..], KeyLe);
      assert ([ms[0]] + rest)[1..] == rest;
    }
  }

  lemma {:induction false} SortPoints(ms: Measures, scenario: string)
    ensures ZeroPoints(Sort(ms, KeyLe), scenario) == ZeroPoints(ms, scenario)
    ensures ScenarioPointsOf(Sort(ms, KeyLe), scenario) == ScenarioPointsOf(ms, scenario)
  {
    if ms != [] {
      SortPoints(ms[1..], scenario);
      InsertPoints(ms[0], Sort(ms[1..], KeyLe), scenario);
      assert ([ms[0]] + Sort(ms[1..], KeyLe))[1..] == Sort(ms[1..], KeyLe);
    }
  }

  /** A run is degenerate exactly when, in some timed scenario, two corpora at least and four fifths
      of all report a zero median and a zero p95, in whatever order they are listed. */
  lemma DegenerateWhen(run: Measures)
    ensures Degenerate(run) <==>
            exists s <- TIMED_SCENARIOS :: ZeroPoints(run, s) >= 2 && 5 * ZeroPoints(run, s) >= 4 * ScenarioPointsOf(run, s)
  {
    forall s | s in TIMED_SCENARIOS
      ensures Stable(ZeroPoints(Sort(run, KeyLe), s), ScenarioPointsOf(Sort(run, KeyLe), s))
         <==> ZeroPoints(run, s) >= 2 && 5 * ZeroPoints(run, s) >= 4 * ScenarioPointsOf(run, s)
    {
      SortPoints(run, s);
    }
  }

  /** A load of a document that is counted, local and takes no time. */
  function Instant(formatId: string): Measure {
    Measure(TIMED_SCENARIOS[0], formatId, "load", formatId, 1, 1, 1, Some(Counters(1.0, true, [])), Times(0.0, 0.0, 0.0, 0.0))
  }

  /** One document of each of two formats. */
  function InstantRun(): Measures {
    [Instant("python"), Instant("json")]
  }

  lemma TwoPoints(a: Measure, b: Measure, scenario: string)
    requires a.scenario == b.scenario == scenario && ZeroTimes(a) && ZeroTimes(b)
    ensures ZeroPoints([a, b], scenario) == 2 && ScenarioPointsOf([a, b], scenario) == 2
  {
    assert [a, b][1..] == [b] && [b][1..] == [];
    assert ZeroPoints([b], scenario) == 1 && ScenarioPointsOf([b], scenario) == 1;
  }

  lemma InstantDegenerate()
    ensures Degenerate(InstantRun())
  {
    TwoPoints(Instant("python"), Instant("json"), TIMED_SCENARIOS[0]);
    assert TIMED_SCENARIOS[0] in TIMED_SCENARIOS;
    DegenerateWhen(InstantRun());
  }

  /** The checks that need no baseline find nothing in it. */
  lemma InstantClean()
    ensures Reported(InstantRun()) && DistinctKeys(InstantRun()) && !OwnFailing(InstantRun())
  {
    var run := InstantRun();
    KeysDiffer("python", "json");
    StructuralFailsWhen(run, map[]);
    OneSizeNotSteep(run);
  }

  lemma OneSizeNotSteep(run: Measures)
    requires Reported(run) && Counted(run) && forall m <- run :: m.lines == 1
    ensures !Failing(Scaling(run))
  {
    ScalingFailsWhen(run);
    forall s, f ensures !Steep(run, s, f) {
      SeriesIs(run, s, f);
    }
  }

  lemma KeysDiffer(a: string, b: string)
    requires a != b
    ensures Instant(a).Key() != Instant(b).Key()
  {
    var head := TIMED_SCENARIOS[0] + "|";
    assert (head + a)[|head|..] == a && (head + b)[|head|..] == b;
  }

  /** Such a run exists. Its own checks pass, and it is refused against itself: recorded as the
      baseline and gated again, it fails at every tolerance. */
  lemma InstantRunFails(store: Store, call: Call, between: seq<Call>, tolerance: real)
    requires call.report.run == InstantRun() && Records(call) && tolerance >= 0.0
    requires forall c <- between :: Reported(c.report.run) && (Records(c) ==> c.branch != call.branch)
    ensures Reported(InstantRun()) && DistinctKeys(InstantRun()) && !OwnFailing(InstantRun())
    ensures var later := GateAll(GateStep(store, call).0, between);
            var again := GateStep(later, Call(call.report, call.branch, tolerance, false, "")).1;
            again.Ok? && again.value.status == Failed && !again.value.passed
  {
    InstantClean();
    InstantDegenerate();
    RecordThenRecheck(store, call, between, tolerance);
  }

  // ----- verdicts --------------------------------------------------------------------------

  lemma JudgeMeaning(fs: seq<Finding>)
    ensures var v := Judge(fs);
            && v.passed == (v.status == Passed) && (v.passed <==> !Failing(fs)) && v.findings == fs
            && (v.status == ProfileMismatch <==> exists f <- fs :: f.status == Fail && f.check == ProfileMatch)
  {
    FailuresFailing(fs);
  }

  /** A call that does not record passes exactly when its branch has a baseline of the same
      profile and none of the three halves fails against it; without a baseline it says so, and
      a baseline of another profile is reported as such; nothing is recorded. It returns the findings
      of the halves that could be made, one after another. */
  lemma VerdictMeaning(store: Store, call: Call)
    requires Reported(call.report.run) && !call.update
    ensures var run := call.report.run;
            var (after, r) := GateStep(store, call);
            && after == store && r.Ok? && (r.value.passed <==> r.value.status == Passed)
            && (r.value.status == NoBaseline <==> call.branch !in store)
            && (call.branch in store ==>
                  var b := store[call.branch];
                  && (r.value.status == ProfileMismatch <==> call.report.profile != b.profile)
                  && (r.value.passed <==>
                        && call.report.profile == b.profile
                        && !Failing(Structural(run, b.measurements)) && !Failing(Scaling(run))
                        && !Failing(Timing(run, b.measurements, call.tolerance))))
            && r.value.findings ==
                 (if call.branch !in store then Structural(run, map[]) + Scaling(run)
                  else if call.report.profile == store[call.branch].profile then
                    Structural(run, store[call.branch].measurements) + Scaling(run)
                    + Timing(run, store[call.branch].measurements, call.tolerance)
                  else Structural(run, store[call.branch].measurements) + Scaling(run)
                       + [Finding(ProfileMatch, "profile|all", Fail, [])])
  {
    if call.branch in store {
      var b, run := store[call.branch], call.report.run;
      var s, g, t := Structural(run, b.measurements), Scaling(run), Timing(run, b.measurements, call.tolerance);
      var fs := Findings(call.report, Some(b), call.tolerance);
      JudgeMeaning(fs);
      FailingConcat(s, g);
      NoProfileFinding(run, b.measurements, call.tolerance);
      if call.report.profile == b.profile {
        FailingConcat(s + g, t);
      } else {
        var mismatch := Finding(ProfileMatch, "profile|all", Fail, []);
        assert mismatch in fs;
      }
    }
  }

  /** A call that records is refused exactly when its decision is blank, and then changes nothing;
      otherwise it passes and only its own branch changes. */
  lemma RecordingMeaning(store: Store, call: Call)
    requires Reported(call.report.run) && call.update
    ensures var (after, r) := GateStep(store, call);
            if Accepted(call.decision) then
              && r.Ok? && r.value.passed && r.value.status == BaselineUpdated
              && call.branch in after && after[call.branch].profile == call.report.profile
              && after[call.branch].measurements == AsStored(call.report.run)
              && (forall f <- after[call.branch].accepted :: f in r.value.findings && f.status == Fail)
              && (forall f <- r.value.findings :: f.status == Fail ==> f in after[call.branch].accepted)
              && (forall branch :: branch != call.branch ==> Recorded(after, branch) == Recorded(store, branch))
            else after == store && r == Err(DecisionMissing)
  {
  }

  /** `t` without the white space around it. */
  predicate Trimmed(d: string, a: string, t: string, c: string) {
    d == a + t + c && PyText.AllSpace(a) && PyText.AllSpace(c)
    && t != [] && !PyText.IsSpace(t[0]) && !PyText.IsSpace(t[|t| - 1])
  }

  lemma StripIs(d: string) returns (a: string, c: string)
    ensures var t := PyText.Strip(d);
            && d == a + t + c && PyText.AllSpace(a) && PyText.AllSpace(c)
            && (t != [] ==> !PyText.IsSpace(t[0]) && !PyText.IsSpace(t[|t| - 1]))
  {
    var t := PyText.LStrip(d);
    var r := PyText.RStrip(t);
    PyText.LStripParts(d);
    PyText.RStripParts(t);
    a, c := d[..|d| - |t|], t[|r|..];
    TakeDrop(t, |r|);
    TakeDrop(d, |d| - |t|);
    Assoc(a, r, c);
  }

  /** A decision is accepted exactly when something is left of it without the white space around it. */
  lemma AcceptedWhen(d: string)
    ensures Accepted(d) <==> exists c :: c in d && !PyText.IsSpace(c)
    ensures Accepted(d) ==> exists a, c :: Trimmed(d, a, PyText.Strip(d), c)
  {
    var t := PyText.Strip(d);
    var a, c := StripIs(d);
    if t != [] {
      assert t[0] in d;
      assert Trimmed(d, a, t, c);
    } else {
      forall x | x in d ensures PyText.IsSpace(x) {
        assert x in a || x in c;
      }
    }
  }

  lemma {:induction false} StoredFrom(run: Measures, k: string)
    ensures k in AsStored(run) ==> exists m <- run :: m.Key() == k && AsStored(run)[k] == m
  {
    if run != [] {
      var n := |run| - 1;
      StoredFrom(run[..n], k);
      assert run[n] in run && forall m <- run[..n] :: m in run;
    }
  }

  /** What a recording writes down: the profile, the decision without the white space around it, the
      decision it supersedes, and the measurements under their keys and nothing else. */
  lemma BaselineRecorded(store: Store, call: Call)
    requires Reported(call.report.run) && DistinctKeys(call.report.run) && Records(call)
    ensures var after := GateStep(store, call).0;
            && call.branch in after
            && (var b := after[call.branch];
                && b.profile == call.report.profile
                && (exists a, c :: Trimmed(call.decision, a, b.decision, c))
                && b.supersedes == (if call.branch in store then Some(store[call.branch].decision) else None)
                && (forall m <- call.report.run :: m.Key() in b.measurements && b.measurements[m.Key()] == m)
                && (forall k <- b.measurements :: exists m <- call.report.run :: m.Key() == k && b.measurements[k] == m))
  {
    var run := call.report.run;
    AcceptedWhen(call.decision);
    forall m | m in run ensures m.Key() in AsStored(run) && AsStored(run)[m.Key()] == m {
      StoredLookup(run, m);
    }
    forall k | k in AsStored(run) ensures exists m <- run :: m.Key() == k && AsStored(run)[k] == m {
      StoredFrom(run, k);
    }
  }

  /** What a recording is for: until the next one on its branch, every call there is judged against
      the recorded run. It passes exactly when its profile is the recorded one and none of the three
      halves fails against the recorded measurements. */
  lemma RecordingGoverns(store: Store, call: Call, between: seq<Call>, later: Call)
    requires Reported(call.report.run) && Records(call)
    requires forall c <- between :: Reported(c.report.run) && (Records(c) ==> c.branch != call.branch)
    requires Reported(later.report.run) && !later.update && later.branch == call.branch
    ensures var r := GateStep(GateAll(GateStep(store, call).0, between), later).1;
            var recorded := AsStored(call.report.run);
            && r.Ok? && r.value.status != NoBaseline
            && (r.value.status == ProfileMismatch <==> later.report.profile != call.report.profile)
            && (r.value.passed <==>
                  && later.report.profile == call.report.profile
                  && !Failing(Structural(later.report.run, recorded)) && !Failing(Scaling(later.report.run))
                  && !Failing(Timing(later.report.run, recorded, later.tolerance)))
  {
    RecordingMeaning(store, call);
    BaselineKept(GateStep(store, call).0, between, call.branch);
    VerdictMeaning(GateAll(GateStep(store, call).0, between), later);
  }
}

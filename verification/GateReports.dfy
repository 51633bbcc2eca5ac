/** What the gate reports, finding by finding: which findings a run gives, about what, and what each of
    them says. */
module GateReports {
  import opened Gate
  import opened GateLaws
  import opened GateMeaning
  import opened SeqLaws
  import opened Sorting
  import opened Wrappers

  function Verdicted(failed: bool): Status {
    if failed then Fail else Pass
  }

  // ----- the structural half ---------------------------------------------------------------

  /** A measurement without counters gives one failure; an edit gives its markers, how much of the
      document it touched, and how its counter stands against the baseline's, if that has one;
      nothing else gives anything. */
  predicate StructuralReport(m: Measure, stored: Stored, f: Finding) {
    f.key == m.scenario + "|" + m.corpus &&
    match m.counters
    case None => f.check == Instrumentation && f.status == Fail && f.observed == []
    case Some(c) =>
      m.phase == "mutate" &&
      match f.check
      case Markers => f.status == Verdicted(!c.isLocal) && f.observed == []
      case Locality =>
        && f.status == Verdicted(TooWide(m, c)) && |f.observed| == 1 && f.observed[0].Fin?
        && (if m.nodes == 0 then f.observed[0].r == 1.0 else f.observed[0].r * (m.nodes as real) == c.affected)
      case CounterGrowth =>
        && m.Key() in stored && stored[m.Key()].counters.Some?
        && f.status == Verdicted(GrownSince(m, c, stored))
        && f.observed == [Fin(c.affected), Fin(stored[m.Key()].counters.value.affected)]
      case _ => false
  }

  lemma QuotientUnique(q: real, a: real, n: real)
    requires n != 0.0
    ensures q * n == a <==> q == a / n
  {
    assert (a / n) * n == a;
    if q * n == a {
      assert (q - a / n) * n == 0.0;
    }
  }

  lemma LocalityReport(m: Measure, c: Counters, q: real)
    ensures (if m.nodes == 0 then q == 1.0 else q * (m.nodes as real) == c.affected) <==> q == LocalityRatio(m, c)
  {
    if m.nodes > 0 {
      QuotientUnique(q, c.affected, m.nodes as real);
    }
  }

  lemma MeasureReports(m: Measure, stored: Stored, f: Finding)
    ensures f in StructuralOf(m, stored) <==> StructuralReport(m, stored, f)
  {
    match m.counters {
      case None =>
      case Some(c) =>
        LocalityMeaning(m, c);
        if |f.observed| == 1 && f.observed[0].Fin? {
          LocalityReport(m, c, f.observed[0].r);
          assert f.observed == [f.observed[0]];
        }
        if m.Key() in stored && stored[m.Key()].counters.Some? {
          GrownMeaning(c.affected, stored[m.Key()].counters.value.affected);
        }
    }
  }

  lemma {:induction false} AllReports(ms: Measures, stored: Stored, f: Finding)
    ensures f in StructuralAll(ms, stored) <==> exists m <- ms :: StructuralReport(m, stored, f)
  {
    if ms != [] {
      MeasureReports(ms[0], stored, f);
      AllReports(ms[1..], stored, f);
      HeadTail(ms);
    }
  }

  predicate KeysInOrder(fs: seq<Finding>) {
    forall i, j :: 0 <= i < j < |fs| ==> StringLe(fs[i].key, fs[j].key)
  }

  /** The structural findings are these and no others, in the order of their keys. */
  lemma StructuralReports(run: Measures, stored: Stored)
    ensures forall f :: f in Structural(run, stored) <==> exists m <- run :: StructuralReport(m, stored, f)
    ensures KeysInOrder(Structural(run, stored))
  {
    var ms := Sort(run, KeyLe);
    SortMembers(run, KeyLe);
    forall f ensures f in Structural(run, stored) <==> exists m <- run :: StructuralReport(m, stored, f) {
      AllReports(ms, stored, f);
    }
    KeysPreorder();
    SortSorted(run, KeyLe);
    KeysRise(ms, stored);
  }

  lemma KeysPreorder()
    ensures TotalPreorder(KeyLe)
  {
    forall a: Measure, b: Measure ensures KeyLe(a, b) || KeyLe(b, a) {
      StringLeTotal(a.Key(), b.Key());
    }
    forall a: Measure, b: Measure, c: Measure | KeyLe(a, b) && KeyLe(b, c) ensures KeyLe(a, c) {
      StringLeTransitive(a.Key(), b.Key(), c.Key());
    }
  }

  lemma {:induction false} KeysRise(ms: Measures, stored: Stored)
    requires SortedBy(ms, KeyLe)
    ensures KeysInOrder(StructuralAll(ms, stored))
  {
    if ms != [] {
      KeysRise(ms[1..], stored);
      var here, rest := StructuralOf(ms[0], stored), StructuralAll(ms[1..], stored);
      var fs := here + rest;
      forall i, j | 0 <= i < j < |fs| ensures StringLe(fs[i].key, fs[j].key) {
        if i >= |here| {
          assert fs[i] == rest[i - |here|] && fs[j] == rest[j - |here|];
        } else {
          assert fs[i] in here && (fs[j] in here || fs[j] in rest);
          FirstKeyLeast(ms, stored, fs[i], fs[j]);
        }
      }
    }
  }

  /** A finding of the first measurement comes before one of it or of a later one. */
  lemma FirstKeyLeast(ms: Measures, stored: Stored, f: Finding, g: Finding)
    requires ms != [] && SortedBy(ms, KeyLe) && f in StructuralOf(ms[0], stored)
    requires g in StructuralOf(ms[0], stored) || g in StructuralAll(ms[1..], stored)
    ensures StringLe(f.key, g.key)
  {
    MeasureReports(ms[0], stored, f);
    StringLeTotal(f.key, f.key);
    if g in StructuralOf(ms[0], stored) {
      MeasureReports(ms[0], stored, g);
    } else {
      AllReports(ms[1..], stored, g);
      var m :| m in ms[1..] && StructuralReport(m, stored, g);
      var k :| 0 <= k < |ms| - 1 && ms[1..][k] == m;
      assert KeyLe(ms[0], ms[k + 1]);
    }
  }

  // ----- growth inside one run -------------------------------------------------------------

  /** One finding for the smallest and the largest document of a scenario and format: of an edit how
      many times the nodes of the small one it touches in the large one, unless it touched none, and
      of anything else how many times as long it takes. */
  predicate GrowthReport(small: Measure, large: Measure, scenario: string, formatId: string, f: Finding)
    requires small.nodes > 0 && (small.counters.Some? <==> large.counters.Some?)
  {
    && f.key == scenario + "|" + formatId && f.status == Verdicted(TooSteep(small, large))
    && if small.phase == "mutate" then
         && small.counters.Some? && small.counters.value.affected != 0.0
         && f.check == LocalScaling && |f.observed| == 1 && f.observed[0].Fin?
         && f.observed[0].r * small.counters.value.affected == large.counters.value.affected
       else
         && f.check == DocumentScaling && |f.observed| == 2
         && (if small.times.median == 0.0 then f.observed[0] == Inf
             else f.observed[0].Fin? && f.observed[0].r * small.times.median == large.times.median)
         && f.observed[1] == Fin((large.nodes as real / small.nodes as real) * 2.5)
  }

  lemma PairReports(small: Measure, large: Measure, scenario: string, formatId: string, f: Finding)
    requires small.nodes > 0 && (small.counters.Some? <==> large.counters.Some?) && Counted([small, large])
    ensures f in ScalingOf(small, large, scenario, formatId) <==> GrowthReport(small, large, scenario, formatId, f)
  {
    PairSteep(small, large, scenario, formatId);
    var fs := ScalingOf(small, large, scenario, formatId);
    if small.phase == "mutate" {
      if small.counters.Some? && small.counters.value.affected != 0.0 {
        FailingOne(fs[0]);
        assert fs == [fs[0]];
        if |f.observed| == 1 && f.observed[0].Fin? {
          QuotientUnique(f.observed[0].r, large.counters.value.affected, small.counters.value.affected);
          assert f.observed == [f.observed[0]];
        }
      }
    } else {
      FailingOne(fs[0]);
      assert fs == [fs[0]];
      if |f.observed| == 2 {
        assert f.observed == [f.observed[0], f.observed[1]];
        if small.times.median != 0.0 && f.observed[0].Fin? {
          QuotientUnique(f.observed[0].r, large.times.median, small.times.median);
        }
      }
    }
  }

  /** The finding of a scenario and format whose documents differ in size. */
  ghost predicate SeriesReport(run: Measures, scenario: string, formatId: string, f: Finding)
    requires Reported(run)
  {
    SeriesFrom(run, scenario, formatId);
    var s := Series(run, scenario, formatId);
    |s| >= 2 && s[0].lines < s[|s| - 1].lines
    && assert s[0] in s && s[|s| - 1] in s; GrowthReport(s[0], s[|s| - 1], scenario, formatId, f)
  }

  lemma SeriesReports(run: Measures, scenario: string, formatId: string, f: Finding)
    requires Reported(run) && Counted(run)
    ensures f in ScalingFor(run, scenario, formatId) <==> SeriesReport(run, scenario, formatId, f)
  {
    SeriesFrom(run, scenario, formatId);
    SeriesRises(run, scenario, formatId);
    var s := Series(run, scenario, formatId);
    if |s| >= 2 {
      assert s[0] in s && s[|s| - 1] in s;
      PairReports(s[0], s[|s| - 1], scenario, formatId, f);
    }
  }

  ghost predicate SomeFormat(run: Measures, scenario: string, formats: seq<string>, f: Finding)
    requires Reported(run)
  {
    exists x <- formats :: SeriesReport(run, scenario, x, f)
  }

  lemma {:induction false} FormatReports(run: Measures, scenario: string, formats: seq<string>, f: Finding)
    requires Reported(run) && Counted(run)
    ensures f in ScalingFormats(run, scenario, formats) <==> SomeFormat(run, scenario, formats, f)
  {
    if formats != [] {
      SeriesReports(run, scenario, formats[0], f);
      FormatReports(run, scenario, formats[1..], f);
      HeadTail(formats);
    }
  }

  lemma {:induction false} ScenarioReports(run: Measures, scenarios: seq<string>, formats: seq<string>, f: Finding)
    requires Reported(run) && Counted(run)
    ensures f in ScalingScenarios(run, scenarios, formats) <==> exists s <- scenarios :: SomeFormat(run, s, formats, f)
  {
    if scenarios != [] {
      FormatReports(run, scenarios[0], formats, f);
      ScenarioReports(run, scenarios[1..], formats, f);
      HeadTail(scenarios);
    }
  }

  /** A growth finding for every scenario and format with documents of different sizes, and no others. */
  lemma GrowthReports(run: Measures, f: Finding)
    requires Reported(run) && Counted(run)
    ensures f in Scaling(run) <==> exists s, x :: SeriesReport(run, s, x, f)
  {
    var scenarios, formats := SortedSet(ScenarioNames(run)), SortedSet(FormatNames(run));
    ScenarioReports(run, scenarios, formats, f);
    SortedSetAscending(ScenarioNames(run));
    SortedSetAscending(FormatNames(run));
    forall s, x | SeriesReport(run, s, x, f) ensures s in scenarios && SomeFormat(run, s, formats, f) {
      ReportNames(run, s, x, f);
      assert x in formats;
    }
  }

  lemma ReportNames(run: Measures, scenario: string, formatId: string, f: Finding)
    requires Reported(run) && SeriesReport(run, scenario, formatId, f)
    ensures scenario in ScenarioNames(run) && formatId in FormatNames(run)
  {
    SeriesIs(run, scenario, formatId);
    var m := Series(run, scenario, formatId)[0];
    var i :| 0 <= i < |run| && run[i] == m;
    assert ScenarioNames(run)[i] == scenario && FormatNames(run)[i] == formatId;
  }

  // ----- times against the baseline --------------------------------------------------------

  /** The scenarios whose times are judged. */
  predicate Timed(scenario: string) {
    scenario == "load_parse" || scenario == "query_select" || scenario == "save_publish" || scenario == "load_tree_decode"
  }

  /** A point for every measurement of a timed scenario that the baseline knows. */
  predicate PointReport(m: Measure, stored: Stored, tolerance: real, f: Finding) {
    Timed(m.scenario) && m.Key() in stored && f == PointOf(m, stored[m.Key()], tolerance)
  }

  /** And one finding over a timed scenario that has points: a failure when two of them at least and
      four fifths of all are hot. */
  predicate ScenarioReport(run: Measures, stored: Stored, scenario: string, tolerance: real, f: Finding) {
    && Timed(scenario) && (exists m <- run :: m.scenario == scenario && m.Key() in stored)
    && f == Finding(TimingRegression, scenario + "|all",
                    Verdicted(HotPoints(run, stored, scenario, tolerance) >= 2
                              && 5 * HotPoints(run, stored, scenario, tolerance) >= 4 * Points(run, stored, scenario)), [])
  }

  lemma {:induction false} PointMembers(ms: Measures, stored: Stored, scenario: string, tolerance: real, f: Finding)
    ensures f in PointFindings(ms, stored, scenario, tolerance) <==>
              exists m <- ms :: m.scenario == scenario && m.Key() in stored && f == PointOf(m, stored[m.Key()], tolerance)
    ensures Points(ms, stored, scenario) > 0 <==> exists m <- ms :: m.scenario == scenario && m.Key() in stored
  {
    if ms != [] {
      PointMembers(ms[1..], stored, scenario, tolerance, f);
      HeadTail(ms);
    }
  }

  lemma ScenarioMembers(run: Measures, stored: Stored, scenario: string, tolerance: real, f: Finding)
    requires Timed(scenario)
    ensures f in TimingFor(Sort(run, KeyLe), stored, scenario, tolerance) <==>
              || (exists m <- run :: m.scenario == scenario && PointReport(m, stored, tolerance, f))
              || ScenarioReport(run, stored, scenario, tolerance, f)
  {
    var ms := Sort(run, KeyLe);
    PointMembers(ms, stored, scenario, tolerance, f);
    SortMembers(run, KeyLe);
    SortHot(run, stored, scenario, tolerance);
    if m :| m in run && m.scenario == scenario && PointReport(m, stored, tolerance, f) {
      assert m in ms;
    }
  }

  lemma {:induction false} TimedMembers(ms: Measures, stored: Stored, scenarios: seq<string>, tolerance: real, f: Finding)
    ensures f in TimingScenarios(ms, stored, scenarios, tolerance) <==>
              exists s <- scenarios :: f in TimingFor(ms, stored, s, tolerance)
  {
    if scenarios != [] {
      TimedMembers(ms, stored, scenarios[1..], tolerance, f);
      HeadTail(scenarios);
    }
  }

  /** The time findings are these and no others. */
  lemma TimingReports(run: Measures, stored: Stored, tolerance: real, f: Finding)
    ensures f in Timing(run, stored, tolerance) <==>
              || (exists m <- run :: PointReport(m, stored, tolerance, f))
              || (exists s :: ScenarioReport(run, stored, s, tolerance, f))
  {
    var ms := Sort(run, KeyLe);
    TimedMembers(ms, stored, TIMED_SCENARIOS, tolerance, f);
    forall s ensures s in TIMED_SCENARIOS <==> Timed(s) {
    }
    forall s | Timed(s)
      ensures f in TimingFor(ms, stored, s, tolerance) <==>
                || (exists m <- run :: m.scenario == s && PointReport(m, stored, tolerance, f))
                || ScenarioReport(run, stored, s, tolerance, f)
    {
      ScenarioMembers(run, stored, s, tolerance, f);
    }
  }
}

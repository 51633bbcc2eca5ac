/** Whole runs of the gate: the baseline kept for each version branch, and the verdicts. */
module GateRuns {
  import opened Wrappers
  import opened Gate
  import opened GateLaws
  import opened Sorting
  import PyText

  /** The fixed profile of a report; times compare only within one profile. */
  datatype Profile = Profile(platform: string, python: string, sizes: seq<nat>, formats: seq<string>, seed: int,
                             iterations: nat, warmups: nat)

  datatype Report = Report(profile: Profile, run: Measures)

  datatype Baseline = Baseline(profile: Profile, decision: string, accepted: seq<Finding>,
                               supersedes: Option<string>, measurements: Stored)

  type Store = map<string, Baseline>

  datatype GateStatus = Passed | Failed | NoBaseline | ProfileMismatch | BaselineUpdated

  datatype Verdict = Verdict(status: GateStatus, passed: bool, findings: seq<Finding>)

  datatype GateError = DecisionMissing

  datatype Call = Call(report: Report, branch: string, tolerance: real, update: bool, decision: string)

  predicate Accepted(decision: string) {
    PyText.Strip(decision) != []
  }

  /** The call records a baseline. */
  predicate Records(call: Call) {
    call.update && Accepted(call.decision)
  }

  function Findings(report: Report, previous: Option<Baseline>, tolerance: real): seq<Finding>
    requires Reported(report.run)
  {
    match previous
    case None => Structural(report.run, map[]) + Scaling(report.run)
    case Some(b) =>
      Structural(report.run, b.measurements) + Scaling(report.run)
      + if report.profile == b.profile then Timing(report.run, b.measurements, tolerance)
        else [Finding(ProfileMatch, "profile|all", Fail, [])]
  }

  function Failures(fs: seq<Finding>): (r: seq<Finding>)
    ensures forall f :: f in r <==> f in fs && f.status == Fail
  {
    if fs == [] then []
    else
      assert fs == [fs[0]] + fs[1..];
      (if fs[0].status == Fail then [fs[0]] else []) + Failures(fs[1..])
  }

  function Recorded(store: Store, branch: string): Option<Baseline> {
    if branch in store then Some(store[branch]) else None
  }

  function NewBaseline(call: Call, previous: Option<Baseline>): Baseline
    requires Reported(call.report.run)
  {
    Baseline(call.report.profile, PyText.Strip(call.decision),
             Failures(Findings(call.report, previous, call.tolerance)),
             match previous case None => None case Some(b) => Some(b.decision),
             AsStored(call.report.run))
  }

  function Judge(findings: seq<Finding>): Verdict {
    if Failures(findings) != [] then
      Verdict(if exists f <- Failures(findings) :: f.check == ProfileMatch then ProfileMismatch else Failed,
              false, findings)
    else Verdict(Passed, true, findings)
  }

  /** One call: the store after it and what it returns. */
  function GateStep(store: Store, call: Call): (Store, Result<Verdict, GateError>)
    requires Reported(call.report.run)
  {
    if call.update && !Accepted(call.decision) then (store, Err(DecisionMissing))
    else
      var previous := Recorded(store, call.branch);
      var findings := Findings(call.report, previous, call.tolerance);
      if call.update then
        (store[call.branch := NewBaseline(call, previous)], Ok(Verdict(BaselineUpdated, true, findings)))
      else if previous.None? then (store, Ok(Verdict(NoBaseline, false, findings)))
      else (store, Ok(Judge(findings)))
  }

  function GateAll(store: Store, calls: seq<Call>): Store
    requires forall c <- calls :: Reported(c.report.run)
    decreases |calls|
  {
    if calls == [] then store
    else
      assert calls[0] in calls;
      GateAll(GateStep(store, calls[0]).0, calls[1..])
  }

  class BenchmarkGate {
    var store: Store

    constructor ()
      ensures store == map[]
    {
      store := map[];
    }

    /** The single entry point: collects the findings, then records or judges. */
    method RunGate(call: Call) returns (r: Result<Verdict, GateError>)
      requires Reported(call.report.run)
      modifies this
      ensures (store, r) == GateStep(old(store), call)
    {
      if call.update && !Accepted(call.decision) {
        return Err(DecisionMissing);
      }
      var previous := Recorded(store, call.branch);
      var measurements := if previous.None? then map[] else previous.value.measurements;
      var findings := StructuralFindings(call.report.run, measurements);
      var more := ScalingFindings(call.report.run);
      findings := findings + more;
      if previous.Some? {
        if call.report.profile == previous.value.profile {
          more := TimingFindings(call.report.run, measurements, call.tolerance);
          findings := findings + more;
        } else {
          findings := findings + [Finding(ProfileMatch, "profile|all", Fail, [])];
        }
      }
      if call.update {
        store := store[call.branch := NewBaseline(call, previous)];
        return Ok(Verdict(BaselineUpdated, true, findings));
      }
      if previous.None? {
        return Ok(Verdict(NoBaseline, false, findings));
      }
      return Ok(Judge(findings));
    }
  }

  // ----- laws of whole runs ----------------------------------------------------------------

  /** The checks that need no baseline. */
  predicate OwnFailing(run: Measures)
    requires Reported(run)
  {
    Failing(Structural(run, map[])) || Failing(Scaling(run))
  }

  lemma FailuresFailing(fs: seq<Finding>)
    ensures Failures(fs) != [] <==> Failing(fs)
  {
    if Failures(fs) != [] {
      assert Failures(fs)[0] in Failures(fs);
    }
    if Failing(fs) {
      var f :| f in fs && f.status == Fail;
      assert f in Failures(fs);
    }
  }

  /** Calls that do not record on a branch leave its baseline alone. */
  lemma {:induction false} BaselineKept(store: Store, calls: seq<Call>, branch: string)
    requires forall c <- calls :: Reported(c.report.run) && (Records(c) ==> c.branch != branch)
    ensures Recorded(GateAll(store, calls), branch) == Recorded(store, branch)
    decreases |calls|
  {
    if calls != [] {
      assert calls[0] in calls;
      BaselineKept(GateStep(store, calls[0]).0, calls[1..], branch);
    }
  }

  /** A run recorded as the baseline and checked again later, after any calls that do not record
      on its branch, passes exactly when its own checks pass and no timed scenario is
      degenerate; otherwise it fails. */
  lemma RecordThenRecheck(store: Store, call: Call, between: seq<Call>, tolerance: real)
    requires Reported(call.report.run) && DistinctKeys(call.report.run) && Records(call) && tolerance >= 0.0
    requires forall c <- between :: Reported(c.report.run) && (Records(c) ==> c.branch != call.branch)
    ensures var later := GateAll(GateStep(store, call).0, between);
            var again := GateStep(later, Call(call.report, call.branch, tolerance, false, "")).1;
            && again.Ok? && again.value.passed == (again.value.status == Passed)
            && (again.value.passed <==> !OwnFailing(call.report.run) && !Degenerate(call.report.run))
            && (!again.value.passed ==> again.value.status == Failed)
  {
    var run := call.report.run;
    var after := GateStep(store, call).0;
    BaselineKept(after, between, call.branch);
    var later := GateAll(after, between);
    var b := later[call.branch];
    assert b.measurements == AsStored(run) && b.profile == call.report.profile;
    SelfComparison(run, tolerance);
    var s, g, t := Structural(run, b.measurements), Scaling(run), Timing(run, b.measurements, tolerance);
    FailingConcat(s, g);
    FailingConcat(s + g, t);
    FailuresFailing(s + g + t);
    NoProfileFinding(run, b.measurements, tolerance);
  }

  lemma NoProfileFinding(run: Measures, stored: Stored, tolerance: real)
    requires Reported(run)
    ensures forall f <- Structural(run, stored) + Scaling(run) + Timing(run, stored, tolerance) :: f.check != ProfileMatch
  {
    NoProfileInStructural(Sort(run, KeyLe), stored);
    NoProfileInScaling(run, SortedSet(ScenarioNames(run)), SortedSet(FormatNames(run)));
    NoProfileInTiming(Sort(run, KeyLe), stored, TIMED_SCENARIOS, tolerance);
  }

  lemma {:induction false} NoProfileInStructural(ms: Measures, stored: Stored)
    ensures forall f <- StructuralAll(ms, stored) :: f.check != ProfileMatch
  {
    if ms != [] {
      NoProfileInStructural(ms[1..], stored);
    }
  }

  lemma {:induction false} NoProfileInScaling(run: Measures, scenarios: seq<string>, formats: seq<string>)
    requires Reported(run)
    ensures forall f <- ScalingScenarios(run, scenarios, formats) :: f.check != ProfileMatch
  {
    if scenarios != [] {
      NoProfileInFormats(run, scenarios[0], formats);
      NoProfileInScaling(run, scenarios[1..], formats);
    }
  }

  lemma {:induction false} NoProfileInFormats(run: Measures, scenario: string, formats: seq<string>)
    requires Reported(run)
    ensures forall f <- ScalingFormats(run, scenario, formats) :: f.check != ProfileMatch
  {
    if formats != [] {
      NoProfileInFormats(run, scenario, formats[1..]);
    }
  }

  lemma {:induction false} NoProfileInPoints(ms: Measures, stored: Stored, scenario: string, tolerance: real)
    ensures forall f <- PointFindings(ms, stored, scenario, tolerance) :: f.check != ProfileMatch
  {
    if ms != [] {
      NoProfileInPoints(ms[1..], stored, scenario, tolerance);
    }
  }

  lemma {:induction false} NoProfileInTiming(ms: Measures, stored: Stored, scenarios: seq<string>, tolerance: real)
    ensures forall f <- TimingScenarios(ms, stored, scenarios, tolerance) :: f.check != ProfileMatch
  {
    if scenarios != [] {
      NoProfileInPoints(ms, stored, scenarios[0], tolerance);
      NoProfileInTiming(ms, stored, scenarios[1..], tolerance);
    }
  }

  /** With positive times, as every measured sample has, a recorded run passes exactly when its
      own checks do. */
  lemma PositiveRecheck(store: Store, call: Call, between: seq<Call>, tolerance: real)
    requires Reported(call.report.run) && DistinctKeys(call.report.run) && Records(call) && tolerance >= 0.0
    requires forall c <- between :: Reported(c.report.run) && (Records(c) ==> c.branch != call.branch)
    requires forall m <- call.report.run :: m.times.median > 0.0
    ensures var later := GateAll(GateStep(store, call).0, between);
            var again := GateStep(later, Call(call.report, call.branch, tolerance, false, "")).1;
            again.Ok? && (again.value.status == Passed <==> !OwnFailing(call.report.run))
  {
    RecordThenRecheck(store, call, between, tolerance);
    SortMembers(call.report.run, KeyLe);
    forall s | s in TIMED_SCENARIOS ensures ZeroPoints(Sort(call.report.run, KeyLe), s) == 0 {
      PositiveTimesNotDegenerate(Sort(call.report.run, KeyLe), s);
    }
  }

  /** What the store holds comes from recording calls only. */
  lemma {:induction false} StoreFromRecords(calls: seq<Call>, branch: string)
    requires forall c <- calls :: Reported(c.report.run)
    ensures branch in GateAll(map[], calls) ==>
              exists c <- calls :: Records(c) && c.branch == branch
                                   && c.report.profile == GateAll(map[], calls)[branch].profile
    decreases |calls|
  {
    if calls != [] {
      var n := |calls| - 1;
      assert calls == calls[..n] + [calls[n]];
      StoreFromRecords(calls[..n], branch);
      GateAllSnoc(map[], calls[..n], calls[n]);
      assert calls[n] in calls;
      forall c | c in calls[..n] ensures c in calls {
      }
    }
  }

  lemma {:induction false} GateAllSnoc(store: Store, calls: seq<Call>, last: Call)
    requires (forall c <- calls :: Reported(c.report.run)) && Reported(last.report.run)
    ensures forall c <- calls + [last] :: Reported(c.report.run)
    ensures GateAll(store, calls + [last]) == GateStep(GateAll(store, calls), last).0
    decreases |calls|
  {
    if calls != [] {
      assert calls[0] in calls;
      GateAllSnoc(GateStep(store, calls[0]).0, calls[1..], last);
      assert (calls + [last])[1..] == calls[1..] + [last];
    }
  }

  /** From an empty store, no call passes unless some call recorded a baseline for its branch,
      on the same profile, with a decision that is not blank. */
  lemma PassNeedsDecision(calls: seq<Call>, call: Call)
    requires (forall c <- calls :: Reported(c.report.run)) && Reported(call.report.run)
    ensures var r := GateStep(GateAll(map[], calls), call).1;
            r.Ok? && r.value.passed ==>
              exists c <- calls + [call] :: Records(c) && c.branch == call.branch && c.report.profile == call.report.profile
  {
    var store := GateAll(map[], calls);
    var r := GateStep(store, call).1;
    if call.branch in store && call.report.profile != store[call.branch].profile {
      MismatchFails(call.report, store[call.branch], call.tolerance);
    }
    if r.Ok? && r.value.passed {
      if call.update {
        assert call in calls + [call];
      } else {
        StoreFromRecords(calls, call.branch);
        var b := store[call.branch];
        var c :| c in calls && Records(c) && c.branch == call.branch && c.report.profile == b.profile;
        assert c in calls + [call];
      }
    }
  }

  /** A baseline of another profile is a failure of its own. */
  lemma MismatchFails(report: Report, b: Baseline, tolerance: real)
    requires Reported(report.run) && report.profile != b.profile
    ensures !Judge(Findings(report, Some(b), tolerance)).passed
  {
    var f := Finding(ProfileMatch, "profile|all", Fail, []);
    assert f in [f];
    assert f in Findings(report, Some(b), tolerance);
  }
}

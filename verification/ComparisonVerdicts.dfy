/** What the log of the comparison mode says, in terms of the calls and of what the legacy side did
    for each: when a comparison cannot be made, when the engines agree, and how many of each kind a
    drained log holds. */
module ComparisonVerdicts {
  import opened Comparison
  import opened ComparisonRuns
  import opened Sorting
  import opened Wrappers

  // ----- one comparison --------------------------------------------------------------------

  predicate Registered(command: string) {
    command == "universal_file_open" || command == "universal_file_search" || command == "universal_file_write"
  }

  /** A comparison cannot be made of a command without a runner or when the runner declines the call;
      then nothing is kept of the old side, and a runner that declines says why. */
  lemma UncomparableWhen(job: Job, legacy: Legacy)
    ensures var r := Compare(job, legacy);
            && (r.verdict == NotComparable <==> !Registered(job.command) || job.now.None? || legacy.Declined?)
            && (r.verdict == NotComparable ==> r.was.None? && r.diff.None?)
            && (r.verdict == NotComparable && Registered(job.command) && job.now.Some? ==> r.reason == legacy.reason)
            && (r.verdict != NotComparable ==> r.was.Some? && r.reason == "")
            && r.command == job.command && r.params == job.params && r.now == job.now
  {
    if Registered(job.command) && job.now.Some? && !legacy.Declined? {
      var was := if legacy.Returned? then legacy.fields else FromException(legacy.text);
      DivergenceKeys(was, job.now.value);
    }
  }

  /** The new side has a normal form unless it succeeds with a command that has none. */
  lemma NormalFormWhen(command: string, e: Envelope)
    ensures Normalize(command, e).None? <==> e.Success? && !Registered(command)
  {
  }

  /** The comparison of a call cannot be made. */
  predicate Uncomparable(c: Call, legacy: Legacy) {
    !Registered(c.command) || legacy.Declined?
  }

  /** What the legacy side comes to: its fields, or the text of its exception. */
  predicate LegacyIs(legacy: Legacy, fields: Fields) {
    (legacy.Returned? && legacy.fields == fields) || (legacy.Raised? && map["error" := Text(legacy.text)] == fields)
  }

  /** Both sides of a call come to the same: a load; the same number of matches, the same kinds each
      as often, and the same names; the same verdict on the bytes; or the same error. */
  ghost predicate Same(c: Call, legacy: Legacy)
    requires !c.primary.TornDown?
  {
    match c.primary
    case Raises(text) => LegacyIs(legacy, map["error" := Text(text)])
    case Answers(Failure(code)) => LegacyIs(legacy, map["error" := Text(code)])
    case Answers(Success(matches, same)) =>
      if c.command == "universal_file_open" then LegacyIs(legacy, map["loaded" := Flag(true)])
      else if c.command == "universal_file_write" then LegacyIs(legacy, map["byte_identical" := Flag(same)])
      else exists fields :: LegacyIs(legacy, fields) && ShapeOf(matches, fields)
  }

  /** The shape of these matches. */
  ghost predicate ShapeOf(matches: seq<Match>, fields: Fields) {
    && fields.Keys == {"total", "kind_counts", "names"}
    && fields["total"] == Count(|matches|)
    && fields["kind_counts"] == Counts(multiset(Kinds(matches)))
    && fields["names"].Names?
    && SortedBy(fields["names"].names, StringLe)
    && multiset(fields["names"].names) == multiset(NamesOf(matches))
  }

  lemma ShapeWhen(matches: seq<Match>, fields: Fields)
    ensures ShapeOf(matches, fields) <==> fields == MatchShape(matches)
  {
    var names := Sort(NamesOf(matches), StringLe);
    StringLePreorder();
    StringLeAntisymmetric();
    SortSorted(NamesOf(matches), StringLe);
    SortContents(NamesOf(matches), StringLe);
    if ShapeOf(matches, fields) {
      SortedUnique(fields["names"].names, names, StringLe);
    }
  }

  /** The verdict on a sampled call, for everything either side may do; and its record names the call,
      and holds what both sides came to, and the difference exactly when there is one. */
  lemma VerdictWhen(c: Call, legacy: Legacy)
    requires !c.primary.TornDown?
    ensures var verdict := Compare(JobOf(c), legacy).verdict;
            && (verdict == NotComparable <==> Uncomparable(c, legacy))
            && (verdict == Agreement <==> !Uncomparable(c, legacy) && Same(c, legacy))
            && (verdict == Diverged <==> !Uncomparable(c, legacy) && !Same(c, legacy))
    ensures var r := Compare(JobOf(c), legacy);
            && r.command == c.command && r.params == c.params
            && (r.verdict != NotComparable ==> r.was.Some? && LegacyIs(legacy, r.was.value) && r.now.Some?)
            && (r.diff.Some? <==> r.verdict == Diverged)
            && (r.diff.Some? ==> r.diff.value.was == r.was.value && r.diff.value.now == r.now.value)
  {
    var job := JobOf(c);
    UncomparableWhen(job, legacy);
    if c.primary.Answers? {
      NormalFormWhen(c.command, c.primary.e);
    }
    if !Uncomparable(c, legacy) {
      var was := if legacy.Returned? then legacy.fields else FromException(legacy.text);
      DivergenceKeys(was, job.now.value);
      SameWhen(c, legacy, was);
    }
  }

  lemma SameWhen(c: Call, legacy: Legacy, was: Fields)
    requires !c.primary.TornDown? && !Uncomparable(c, legacy)
    requires was == if legacy.Returned? then legacy.fields else FromException(legacy.text)
    ensures NewSide(c).Some? && (Same(c, legacy) <==> was == NewSide(c).value)
  {
    if c.primary.Answers? && c.primary.e.Success? && c.command == SEARCH {
      ShapeWhen(c.primary.e.matches, was);
      forall fields | LegacyIs(legacy, fields) ensures fields == was {
      }
      assert LegacyIs(legacy, was);
    }
  }

  // ----- the log after a wait --------------------------------------------------------------

  /** The sampled calls that came back, in their order. */
  function SampledCalls(s: Strategy, calls: seq<Call>): (r: seq<Call>)
    ensures forall c <- r :: !c.primary.TornDown?
  {
    if calls == [] then []
    else
      var c := calls[|calls| - 1];
      SampledCalls(s, calls[..|calls| - 1]) + if LastSampled(s, calls) && !c.primary.TornDown? then [c] else []
  }

  lemma {:induction false} JobsOfCalls(s: Strategy, calls: seq<Call>)
    ensures var r, jobs := SampledCalls(s, calls), JobsOf(s, calls);
            |jobs| == |r| && forall i :: 0 <= i < |r| ==> !r[i].primary.TornDown? && jobs[i] == JobOf(r[i])
  {
    if calls != [] {
      JobsOfCalls(s, calls[..|calls| - 1]);
    }
  }

  /** The records with one verdict. */
  function Of(log: seq<Entry>, v: VerdictKind): seq<Entry> {
    if log == [] then []
    else
      var n := |log| - 1;
      Of(log[..n], v) + if log[n].record.verdict == v then [log[n]] else []
  }

  function JobsWith(log: seq<Entry>, v: VerdictKind): set<nat> {
    set e | e in log && e.record.verdict == v :: e.job
  }

  lemma {:induction false} OfCount(log: seq<Entry>, v: VerdictKind)
    requires LogDistinct(log)
    ensures |Of(log, v)| == |JobsWith(log, v)|
  {
    if log != [] {
      var n := |log| - 1;
      OfCount(log[..n], v);
      JobsSnoc(log[..n], log[n], v);
      assert log == log[..n] + [log[n]];
    }
  }

  lemma JobsSnoc(log: seq<Entry>, e: Entry, v: VerdictKind)
    requires forall d <- log :: d.job != e.job
    ensures |JobsWith(log + [e], v)| == |JobsWith(log, v)| + if e.record.verdict == v then 1 else 0
  {
    var before, after := JobsWith(log, v), JobsWith(log + [e], v);
    forall d ensures d in log + [e] <==> d in log || d == e {
    }
    if e.record.verdict == v {
      assert after == before + {e.job};
    } else {
      assert after == before;
    }
  }

  /** The calls on which the verdict is `v`. */
  ghost predicate Has(c: Call, legacy: Legacy, v: VerdictKind)
    requires !c.primary.TornDown?
  {
    match v
    case NotComparable => Uncomparable(c, legacy)
    case Agreement => !Uncomparable(c, legacy) && Same(c, legacy)
    case Diverged => !Uncomparable(c, legacy) && !Same(c, legacy)
  }

  ghost function CallsWith(calls: seq<Call>, outcomes: seq<Legacy>, v: VerdictKind): set<nat>
    requires |outcomes| == |calls| && forall c <- calls :: !c.primary.TornDown?
  {
    set i: nat | i < |calls| && Has(calls[i], outcomes[i], v)
  }

  ghost function OutcomeOf(st: State, j: nat): Legacy
    requires Logged(st, j)
  {
    var e :| e in st.log && e.job == j;
    e.legacy
  }

  lemma OnlyEntry(log: seq<Entry>, a: Entry, b: Entry)
    requires LogDistinct(log) && a in log && b in log && a.job == b.job
    ensures a == b
  {
  }

  lemma EntryVerdict(st: State, s: Strategy, calls: seq<Call>, e: Entry, v: VerdictKind)
    requires LogSound(st) && e in st.log && calls == SampledCalls(s, Offered(st)) && st.jobs == JobsOf(s, Offered(st))
    ensures e.job < |calls| && !calls[e.job].primary.TornDown?
    ensures e.record.verdict == v <==> Has(calls[e.job], e.legacy, v)
  {
    JobsOfCalls(s, Offered(st));
    VerdictWhen(calls[e.job], e.legacy);
  }

  /** When a wait returns, in whatever interleaving, every sampled call has had one outcome on the
      legacy side, and the log holds as many agreements, divergences and comparisons that could not be
      made as the calls and these outcomes give. */
  lemma LogTotals(s: Strategy, workers: nat, actions: seq<Action>, st: State)
    requires Run(Initial(), s, workers, actions, st) && Enabled(st, workers, WaitReturns)
    ensures exists outcomes ::
              && |outcomes| == |SampledCalls(s, Offered(st))|
              && forall v :: |Of(st.log, v)| == |CallsWith(SampledCalls(s, Offered(st)), outcomes, v)|
  {
    InitialInv(s);
    RunInv(Initial(), s, workers, actions, st);
    WaitDrains(s, workers, actions, st);
    var calls := SampledCalls(s, Offered(st));
    JobsOfCalls(s, Offered(st));
    forall j: nat | j < |calls| ensures Logged(st, j) {
      assert Recorded(st, j);
    }
    var outcomes := OutcomesOf(st, |calls|);
    forall v ensures |Of(st.log, v)| == |CallsWith(calls, outcomes, v)| {
      OfCount(st.log, v);
      SameJobs(st, s, calls, outcomes, v);
    }
  }

  ghost function OutcomesOf(st: State, n: nat): (r: seq<Legacy>)
    requires forall j: nat :: j < n ==> Logged(st, j)
    ensures |r| == n && forall j: nat :: j < n ==> r[j] == OutcomeOf(st, j)
  {
    seq(n, j requires 0 <= j < n => OutcomeOf(st, j))
  }

  lemma SameJobs(st: State, s: Strategy, calls: seq<Call>, outcomes: seq<Legacy>, v: VerdictKind)
    requires LogSound(st) && calls == SampledCalls(s, Offered(st)) && st.jobs == JobsOf(s, Offered(st))
    requires |outcomes| == |calls|
    requires forall j: nat :: j < |calls| ==> Logged(st, j) && outcomes[j] == OutcomeOf(st, j)
    ensures JobsWith(st.log, v) == CallsWith(calls, outcomes, v)
  {
    forall e | e in st.log ensures e.job < |calls| && e.legacy == outcomes[e.job] {
      EntryVerdict(st, s, calls, e, v);
      var first :| first in st.log && first.job == e.job && first.legacy == OutcomeOf(st, e.job);
      OnlyEntry(st.log, e, first);
    }
    forall j: nat ensures j in JobsWith(st.log, v) <==> j in CallsWith(calls, outcomes, v) {
      forall e | e in st.log && e.job == j ensures e.record.verdict == v <==> j in CallsWith(calls, outcomes, v) {
        EntryVerdict(st, s, calls, e, v);
      }
    }
  }
}

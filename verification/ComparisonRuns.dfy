/** The comparison mode of adapter/comparison.py as a protocol: one caller runs commands and
    waits, a first-in-first-out pool of workers compares and logs, in any interleaving. */
module ComparisonRuns {
  import opened Wrappers
  import opened Comparison

  // ----- which calls are compared ----------------------------------------------------------

  datatype Strategy = Strategy(enabled: bool, perCommand: map<string, bool>, sampleEvery: int)

  function Every(s: Strategy): (n: nat)
    ensures n > 0
  {
    if s.sampleEvery > 1 then s.sampleEvery else 1
  }

  predicate On(s: Strategy, command: string) {
    if command in s.perCommand then s.perCommand[command] else s.enabled
  }

  predicate EnabledFor(s: Strategy, command: string, occurrence: nat) {
    On(s, command) && occurrence % Every(s) == 0
  }

  /** What the primary side does with a call: it answers, it raises, or it is torn down by an
      exception that is not an `Exception`, after which nothing is scheduled. */
  datatype Primary = Answers(e: Envelope) | Raises(text: string) | TornDown

  datatype Call = Call(command: string, params: string, primary: Primary)

  function Occurrences(calls: seq<Call>, command: string): nat {
    if calls == [] then 0
    else Occurrences(calls[..|calls| - 1], command) + if calls[|calls| - 1].command == command then 1 else 0
  }

  /** Whether the last of `calls` is sampled. */
  predicate LastSampled(s: Strategy, calls: seq<Call>)
    requires calls != []
  {
    var n := |calls| - 1;
    EnabledFor(s, calls[n].command, Occurrences(calls[..n], calls[n].command))
  }

  function Sampled(s: Strategy, calls: seq<Call>, command: string): nat {
    if calls == [] then 0
    else Sampled(s, calls[..|calls| - 1], command)
         + if calls[|calls| - 1].command == command && LastSampled(s, calls) then 1 else 0
  }

  function Ceiling(n: nat, k: nat): nat
    requires k > 0
  {
    (n + k - 1) / k
  }

  lemma CeilingStep(n: nat, k: nat)
    requires k > 0
    ensures Ceiling(n + 1, k) == Ceiling(n, k) + if n % k == 0 then 1 else 0
  {
    var q, r := n / k, n % k;
    assert n == q * k + r;
    if r == 0 {
      assert n + k - 1 == q * k + (k - 1) && n + 1 + k - 1 == (q + 1) * k;
      QuotientIs(n + k - 1, k, q, k - 1);
      QuotientIs(n + k, k, q + 1, 0);
    } else {
      assert n + k - 1 == (q + 1) * k + (r - 1) && n + k == (q + 1) * k + r;
      QuotientIs(n + k - 1, k, q + 1, r - 1);
      QuotientIs(n + k, k, q + 1, r);
    }
  }

  lemma QuotientIs(n: nat, k: nat, q: nat, r: nat)
    requires k > 0 && n == q * k + r && r < k
    ensures n / k == q
  {
    var d := n / k - q;
    assert n == (n / k) * k + n % k;
    assert d * k == r - n % k;
    assert (-d) * k == n % k - r;
    if d > 0 {
      MulGrows(d, k);
    } else if d < 0 {
      MulGrows(-d, k);
    }
  }

  lemma MulGrows(d: int, k: nat)
    requires d > 0
    ensures d * k >= k
  {
  }

  /** After `n` calls of an enabled command, whatever other commands were called in between,
      exactly every `k`-th of them, the first included, has been sampled; of a disabled command
      none. */
  lemma {:induction false} SampledCount(s: Strategy, calls: seq<Call>, command: string)
    ensures var enabled := if command in s.perCommand then s.perCommand[command] else s.enabled;
            var every := if s.sampleEvery > 1 then s.sampleEvery else 1;
            Sampled(s, calls, command) == if enabled then Ceiling(Occurrences(calls, command), every) else 0
  {
    if calls == [] {
      QuotientIs(Every(s) - 1, Every(s), 0, Every(s) - 1);
    } else {
      SampledCount(s, calls[..|calls| - 1], command);
      CeilingStep(Occurrences(calls[..|calls| - 1], command), Every(s));
    }
  }

  /** The new side's normalised outcome, which travels with the job. */
  function NewSide(c: Call): Option<Fields>
    requires !c.primary.TornDown?
  {
    match c.primary
    case Answers(e) => Normalize(c.command, e)
    case Raises(text) => Some(FromException(text))
  }

  function JobOf(c: Call): Job
    requires !c.primary.TornDown?
  {
    Job(c.command, c.params, NewSide(c))
  }

  /** The comparisons a sequence of calls schedules: one for each sampled call that came back. */
  function JobsOf(s: Strategy, calls: seq<Call>): seq<Job> {
    if calls == [] then []
    else JobsOf(s, calls[..|calls| - 1])
         + var c := calls[|calls| - 1];
           if LastSampled(s, calls) && !c.primary.TornDown? then [JobOf(c)] else []
  }

  // ----- the protocol ----------------------------------------------------------------------

  datatype Entry = Entry(job: nat, legacy: Legacy, record: Record)

  /** `jobs` are numbered in the order of scheduling. A job is queued, then running; a running
      job may have logged its record already; then its future is done, well or badly.
      `closedAt` is how many calls had been made when the executor was shut down. */
  datatype State = State(counters: map<string, nat>, calls: seq<Call>, jobs: seq<Job>, queue: seq<nat>,
                         running: set<nat>, done: set<nat>, torn: set<nat>, pending: seq<nat>, log: seq<Entry>,
                         closedAt: Option<nat>)

  datatype Action =
    | RunCall(call: Call)
    | Take                                   // a free worker takes the oldest job
    | Log(job: nat, legacy: Legacy)          // it records the verdict
    | Finish(job: nat)                       // its future is done
    | Tear(job: nat)                         // an exception that is no `Exception`: its future fails, without a record
    | WaitReturns                            // every pending future was done and well
    | WaitRaises                             // a pending future had failed
    | Close                                  // a wait returned, and the executor is shut down

  function Initial(): State {
    State(map[], [], [], [], {}, {}, {}, [], [], None)
  }

  function NextOccurrence(st: State, command: string): nat {
    if command in st.counters then st.counters[command] else 0
  }

  predicate Logged(st: State, job: nat) {
    exists e <- st.log :: e.job == job
  }

  /** The calls made while the executor took comparisons. */
  function Offered(st: State): seq<Call> {
    if st.closedAt.Some? && st.closedAt.value <= |st.calls| then st.calls[..st.closedAt.value] else st.calls
  }

  /** A wait blocks on the pending futures in their order: those before `i` are done and well. */
  predicate WellBefore(st: State, i: nat)
    requires i <= |st.pending|
  {
    forall j :: 0 <= j < i ==> st.pending[j] in st.done && st.pending[j] !in st.torn
  }

  predicate Enabled(st: State, workers: nat, a: Action) {
    match a
    case RunCall(_) => true
    case Take => st.queue != [] && |st.running| < workers
    case Log(j, _) => j in st.running && j < |st.jobs| && !Logged(st, j)
    case Finish(j) => j in st.running && Logged(st, j)
    case Tear(j) => j in st.running && !Logged(st, j)
    case WaitReturns => WellBefore(st, |st.pending|)
    case WaitRaises => exists i :: 0 <= i < |st.pending| && st.pending[i] in st.torn && WellBefore(st, i)
    case Close => WellBefore(st, |st.pending|)
  }

  ghost function Next(st: State, s: Strategy, a: Action): State {
    match a
    case RunCall(c) =>
      var n := NextOccurrence(st, c.command);
      var st' := st.(counters := st.counters[c.command := n + 1], calls := st.calls + [c]);
      if EnabledFor(s, c.command, n) && !c.primary.TornDown? && st.closedAt.None? then
        st'.(jobs := st.jobs + [JobOf(c)], queue := st.queue + [|st.jobs|], pending := st.pending + [|st.jobs|])
      else st'
    case Take => if st.queue == [] then st else st.(queue := st.queue[1..], running := st.running + {st.queue[0]})
    case Log(j, legacy) =>
      if j < |st.jobs| then st.(log := st.log + [Entry(j, legacy, Compare(st.jobs[j], legacy))]) else st
    case Finish(j) => st.(running := st.running - {j}, done := st.done + {j})
    case Tear(j) => st.(running := st.running - {j}, done := st.done + {j}, torn := st.torn + {j})
    case WaitReturns => st.(pending := [])
    case WaitRaises => st
    case Close => st.(pending := [], closedAt := if st.closedAt.Some? then st.closedAt else Some(|st.calls|))
  }

  /** A run of the protocol: every action is possible when it happens. */
  ghost predicate Run(st: State, s: Strategy, workers: nat, actions: seq<Action>, end: State)
    decreases |actions|
  {
    if actions == [] then st == end
    else Enabled(st, workers, actions[0]) && Run(Next(st, s, actions[0]), s, workers, actions[1..], end)
  }

  // ----- the invariant ---------------------------------------------------------------------

  predicate LogDistinct(log: seq<Entry>) {
    forall i, j :: 0 <= i < j < |log| ==> log[i].job != log[j].job
  }

  /** The queue is the tail of the jobs; the others run or are done. */
  ghost predicate JobsPlaced(st: State) {
    && |st.queue| <= |st.jobs|
    && (forall i :: 0 <= i < |st.queue| ==> st.queue[i] == |st.jobs| - |st.queue| + i)
    && (forall j: nat :: j in st.running || j in st.done <==> j < |st.jobs| - |st.queue|)
    && st.running !! st.done && st.torn <= st.done
  }

  ghost predicate LogSound(st: State) {
    && LogDistinct(st.log)
    && (forall e <- st.log :: e.job < |st.jobs| && e.record == Compare(st.jobs[e.job], e.legacy)
                              && (e.job in st.running || e.job in st.done) && e.job !in st.torn)
    && (forall j <- st.done :: j in st.torn || Logged(st, j))
  }

  ghost predicate Inv(st: State, s: Strategy) {
    && JobsPlaced(st) && LogSound(st)
    && st.jobs == JobsOf(s, Offered(st)) && (st.closedAt.Some? ==> st.closedAt.value <= |st.calls|)
    && (forall c :: NextOccurrence(st, c) == Occurrences(st.calls, c))
    && (forall j: nat :: j < |st.jobs| ==> j in st.pending || (j in st.done && j !in st.torn))
    && (forall j <- st.pending :: j < |st.jobs|)
  }

  lemma InitialInv(s: Strategy)
    ensures Inv(Initial(), s)
  {
  }

  lemma CallCounted(st: State, s: Strategy, c: Call)
    requires forall k :: NextOccurrence(st, k) == Occurrences(st.calls, k)
    ensures forall k :: NextOccurrence(Next(st, s, RunCall(c)), k) == Occurrences(Next(st, s, RunCall(c)).calls, k)
  {
    var st' := Next(st, s, RunCall(c));
    var n := |st.calls|;
    assert st'.calls[..n] == st.calls && st'.calls[n] == c;
    forall k ensures NextOccurrence(st', k) == Occurrences(st'.calls, k) {
      assert NextOccurrence(st, k) == Occurrences(st.calls, k);
    }
  }

  lemma CallJobs(st: State, s: Strategy, c: Call)
    requires Inv(st, s)
    ensures var st' := Next(st, s, RunCall(c));
            st'.jobs == JobsOf(s, Offered(st')) && (st'.closedAt.Some? ==> st'.closedAt.value <= |st'.calls|)
  {
    var st' := Next(st, s, RunCall(c));
    var n := |st.calls|;
    assert st'.calls[..n] == st.calls && st'.calls[n] == c;
    if st.closedAt.Some? {
      assert Offered(st') == Offered(st);
    } else {
      assert NextOccurrence(st, c.command) == Occurrences(st.calls, c.command);
      assert LastSampled(s, st'.calls) <==> EnabledFor(s, c.command, NextOccurrence(st, c.command));
    }
  }

  lemma CallPlaced(st: State, s: Strategy, c: Call)
    requires Inv(st, s)
    ensures var st' := Next(st, s, RunCall(c));
            && JobsPlaced(st') && LogSound(st')
            && (forall j: nat :: j < |st'.jobs| ==> j in st'.pending || (j in st'.done && j !in st'.torn))
            && (forall j <- st'.pending :: j < |st'.jobs|)
  {
    var st' := Next(st, s, RunCall(c));
    assert forall j :: Logged(st, j) ==> Logged(st', j);
    assert forall j: nat :: j < |st.jobs| ==> st'.jobs[j] == st.jobs[j];
  }

  lemma RunCallInv(st: State, s: Strategy, c: Call)
    requires Inv(st, s)
    ensures Inv(Next(st, s, RunCall(c)), s)
  {
    CallCounted(st, s, c);
    CallJobs(st, s, c);
    CallPlaced(st, s, c);
  }

  lemma LogInv(st: State, s: Strategy, j: nat, legacy: Legacy)
    requires Inv(st, s) && j in st.running && j < |st.jobs| && !Logged(st, j)
    ensures Inv(Next(st, s, Log(j, legacy)), s)
  {
    var st' := Next(st, s, Log(j, legacy));
    var e := Entry(j, legacy, Compare(st.jobs[j], legacy));
    assert forall i :: 0 <= i < |st.log| ==> st.log[i] in st.log;
    forall k | Logged(st, k) ensures Logged(st', k) {
      var x :| x in st.log && x.job == k;
      assert x in st'.log;
    }
  }

  lemma TakeInv(st: State, s: Strategy)
    requires Inv(st, s) && st.queue != []
    ensures Inv(Next(st, s, Take), s)
  {
    var st' := Next(st, s, Take);
    assert forall j :: Logged(st, j) == Logged(st', j);
    assert st.queue[0] == |st.jobs| - |st.queue|;
    assert JobsPlaced(st');
    assert LogSound(st');
    assert forall c :: NextOccurrence(st', c) == NextOccurrence(st, c);
  }

  lemma FinishInv(st: State, s: Strategy, j: nat)
    requires Inv(st, s) && j in st.running && Logged(st, j)
    ensures Inv(Next(st, s, Finish(j)), s)
  {
    var st' := Next(st, s, Finish(j));
    assert forall k :: Logged(st, k) == Logged(st', k);
    assert j !in st.torn by {
      var e :| e in st.log && e.job == j;
    }
    assert JobsPlaced(st');
    assert LogSound(st');
    assert forall c :: NextOccurrence(st', c) == NextOccurrence(st, c);
  }

  lemma TearInv(st: State, s: Strategy, j: nat)
    requires Inv(st, s) && j in st.running && !Logged(st, j)
    ensures Inv(Next(st, s, Tear(j)), s)
  {
    var st' := Next(st, s, Tear(j));
    assert forall k :: Logged(st, k) == Logged(st', k);
    assert JobsPlaced(st');
    assert LogSound(st');
    assert forall c :: NextOccurrence(st', c) == NextOccurrence(st, c);
    assert j in st.pending;
  }

  lemma WaitInv(st: State, s: Strategy, workers: nat)
    requires Inv(st, s) && Enabled(st, workers, WaitReturns)
    ensures Inv(Next(st, s, WaitReturns), s)
  {
    var st' := Next(st, s, WaitReturns);
    assert forall k :: Logged(st, k) == Logged(st', k);
    assert forall c :: NextOccurrence(st', c) == NextOccurrence(st, c);
  }

  lemma CloseInv(st: State, s: Strategy, workers: nat)
    requires Inv(st, s) && Enabled(st, workers, Close)
    ensures Inv(Next(st, s, Close), s)
  {
    var st' := Next(st, s, Close);
    assert st.calls[..|st.calls|] == st.calls;
    assert Offered(st') == Offered(st);
    assert forall k :: Logged(st, k) == Logged(st', k);
    assert forall c :: NextOccurrence(st', c) == NextOccurrence(st, c);
  }

  lemma NextInv(st: State, s: Strategy, workers: nat, a: Action)
    requires Inv(st, s) && Enabled(st, workers, a)
    ensures Inv(Next(st, s, a), s)
  {
    match a
    case RunCall(c) => RunCallInv(st, s, c);
    case Take => TakeInv(st, s);
    case Log(j, legacy) => LogInv(st, s, j, legacy);
    case Finish(j) => FinishInv(st, s, j);
    case Tear(j) => TearInv(st, s, j);
    case WaitReturns => WaitInv(st, s, workers);
    case WaitRaises =>
    case Close => CloseInv(st, s, workers);
  }

  lemma {:induction false} RunInv(st: State, s: Strategy, workers: nat, actions: seq<Action>, end: State)
    requires Inv(st, s) && Run(st, s, workers, actions, end)
    ensures Inv(end, s)
    decreases |actions|
  {
    if actions != [] {
      NextInv(st, s, workers, actions[0]);
      RunInv(Next(st, s, actions[0]), s, workers, actions[1..], end);
    }
  }

  // ----- what every run keeps --------------------------------------------------------------

  function LoggedJobs(log: seq<Entry>): (r: set<nat>)
    ensures forall j :: j in r <==> exists e <- log :: e.job == j
  {
    set e | e in log :: e.job
  }

  lemma {:induction false} LoggedJobsCount(log: seq<Entry>)
    requires LogDistinct(log)
    ensures |LoggedJobs(log)| == |log|
  {
    if log != [] {
      var n := |log| - 1;
      LoggedJobsCount(log[..n]);
      assert log == log[..n] + [log[n]];
      assert LoggedJobs(log) == LoggedJobs(log[..n]) + {log[n].job};
    }
  }

  function UpTo(n: nat): (r: set<nat>)
    ensures |r| == n && forall j: nat :: j in r <==> j < n
  {
    if n == 0 then {} else UpTo(n - 1) + {n - 1}
  }

  /** Jobs whose legacy side has not ended yet. */
  function Unexecuted(st: State): set<nat> {
    UpTo(|st.jobs|) - LoggedJobs(st.log) - st.torn
  }

  /** In every reachable state the scheduled comparisons are exactly the sampled calls that came
      back before the mode was closed, and their number is that of the records logged, plus the
      jobs not yet executed, plus the workers torn down. */
  lemma Conservation(s: Strategy, workers: nat, actions: seq<Action>, st: State)
    requires Run(Initial(), s, workers, actions, st)
    ensures st.jobs == JobsOf(s, Offered(st))
    ensures |st.jobs| == |st.log| + |Unexecuted(st)| + |st.torn|
  {
    InitialInv(s);
    RunInv(Initial(), s, workers, actions, st);
    Partition(st, s);
  }

  lemma ThreeParts(all: set<nat>, a: set<nat>, c: set<nat>)
    requires a <= all && c <= all && a !! c
    ensures |all| == |a| + |all - a - c| + |c|
  {
    var rest := all - a - c;
    assert all == a + (rest + c);
  }

  lemma LoggedOrTorn(st: State, s: Strategy)
    requires Inv(st, s)
    ensures forall j <- LoggedJobs(st.log) :: j < |st.jobs| && j !in st.torn
    ensures forall j <- st.torn :: j < |st.jobs|
  {
    forall j | j in LoggedJobs(st.log) ensures j < |st.jobs| && j !in st.torn {
      var e :| e in st.log && e.job == j;
    }
    forall j | j in st.torn ensures j < |st.jobs| {
      assert j in st.done;
    }
  }

  lemma Partition(st: State, s: Strategy)
    requires Inv(st, s)
    ensures |st.jobs| == |st.log| + |Unexecuted(st)| + |st.torn|
  {
    LoggedJobsCount(st.log);
    LoggedOrTorn(st, s);
    ThreeParts(UpTo(|st.jobs|), LoggedJobs(st.log), st.torn);
  }

  /** When an untimed wait returns, in whatever interleaving, the log is a permutation of the
      scheduled comparisons: one record for each, each the comparison of that job with some
      outcome of its legacy side. */
  lemma WaitDrains(s: Strategy, workers: nat, actions: seq<Action>, st: State)
    requires Run(Initial(), s, workers, actions, st) && Enabled(st, workers, WaitReturns)
    ensures LogDistinct(st.log) && |st.log| == |st.jobs| && st.jobs == JobsOf(s, Offered(st))
    ensures forall j: nat :: j < |st.jobs| ==> Recorded(st, j)
    ensures st.torn == {} && Next(st, s, WaitReturns).pending == []
  {
    InitialInv(s);
    RunInv(Initial(), s, workers, actions, st);
    Drained(st, s, workers);
    Partition(st, s);
  }

  /** The log holds the comparison of job `j` with some outcome of its legacy side. */
  ghost predicate Recorded(st: State, j: nat)
    requires j < |st.jobs|
  {
    exists e <- st.log :: e.job == j && e.record == Compare(st.jobs[j], e.legacy)
  }

  lemma Drained(st: State, s: Strategy, workers: nat)
    requires Inv(st, s) && Enabled(st, workers, WaitReturns)
    ensures forall j: nat :: j < |st.jobs| ==> Recorded(st, j)
    ensures st.torn == {} && Unexecuted(st) == {}
  {
    forall j: nat | j < |st.jobs| ensures Recorded(st, j) && j !in st.torn && j in LoggedJobs(st.log) {
      assert j in st.pending ==> j in st.done && j !in st.torn;
      var e :| e in st.log && e.job == j;
    }
    forall j | j in st.torn ensures j < |st.jobs| {
      assert j in st.done;
    }
  }

  /** A wait returns exactly when every comparison is done and no worker was torn down. */
  lemma WaitReturnsWhen(s: Strategy, workers: nat, actions: seq<Action>, st: State)
    requires Run(Initial(), s, workers, actions, st)
    ensures Enabled(st, workers, WaitReturns) <==> st.torn == {} && forall j: nat :: j < |st.jobs| ==> j in st.done
  {
    InitialInv(s);
    RunInv(Initial(), s, workers, actions, st);
    assert forall i :: 0 <= i < |st.pending| ==> st.pending[i] in st.pending;
    if Enabled(st, workers, WaitReturns) {
      WaitDrains(s, workers, actions, st);
    }
  }

  lemma {:induction false} TornStays(st: State, s: Strategy, workers: nat, actions: seq<Action>, end: State)
    requires Run(st, s, workers, actions, end)
    ensures st.torn <= end.torn
    decreases |actions|
  {
    if actions != [] {
      TornStays(Next(st, s, actions[0]), s, workers, actions[1..], end);
    }
  }

  lemma {:induction false} RunSplit(st: State, s: Strategy, workers: nat, actions: seq<Action>, mid: State,
                                    more: seq<Action>, end: State)
    requires Run(st, s, workers, actions, mid) && Run(mid, s, workers, more, end)
    ensures Run(st, s, workers, actions + more, end)
    decreases |actions|
  {
    if actions == [] {
      assert actions + more == more;
    } else {
      assert (actions + more)[1..] == actions[1..] + more;
      RunSplit(Next(st, s, actions[0]), s, workers, actions[1..], mid, more, end);
    }
  }

  /** One torn worker is never forgotten: from then on no wait returns, and closing fails too. */
  lemma TornNeverDrained(s: Strategy, workers: nat, actions: seq<Action>, mid: State, more: seq<Action>, end: State)
    requires Run(Initial(), s, workers, actions, mid) && mid.torn != {} && Run(mid, s, workers, more, end)
    ensures !Enabled(end, workers, WaitReturns) && !Enabled(end, workers, Close)
  {
    RunSplit(Initial(), s, workers, actions, mid, more, end);
    TornStays(mid, s, workers, more, end);
    WaitReturnsWhen(s, workers, actions + more, end);
  }

  lemma {:induction false} RunStep(st: State, s: Strategy, workers: nat, a: Action, rest: seq<Action>, end: State)
    requires Enabled(st, workers, a) && Run(Next(st, s, a), s, workers, rest, end)
    ensures Run(st, s, workers, [a] + rest, end)
  {
    assert ([a] + rest)[1..] == rest;
  }

  /** It does happen, to any command that is compared: the worker that takes the first call is torn
      down. */
  lemma TearHappens(s: Strategy, workers: nat, c: Call) returns (actions: seq<Action>, st: State)
    requires workers > 0 && On(s, c.command) && !c.primary.TornDown?
    ensures Run(Initial(), s, workers, actions, st) && st.calls == [c] && st.torn == {0}
    ensures Enabled(st, workers, WaitRaises) && !Enabled(st, workers, WaitReturns)
  {
    var called := Next(Initial(), s, RunCall(c));
    assert called.queue == [0] && called.pending == [0] && called.running == {};
    var taken := Next(called, s, Take);
    st := Next(taken, s, Tear(0));
    RunStep(taken, s, workers, Tear(0), [], st);
    RunStep(called, s, workers, Take, [Tear(0)], st);
    actions := [RunCall(c)] + ([Take] + [Tear(0)]);
    RunStep(Initial(), s, workers, RunCall(c), [Take] + [Tear(0)], st);
    assert st.pending[0] in st.torn && WellBefore(st, 0);
  }

  // ----- one worker: the log is in the order of the calls ----------------------------------

  predicate InOrder(log: seq<Entry>) {
    forall i, j :: 0 <= i < j < |log| ==> log[i].job < log[j].job
  }

  /** With one worker only the job taken last can be running, and everything logged came before
      it or is it. */
  ghost predicate OneAtATime(st: State) {
    && |st.running| <= 1 && InOrder(st.log)
    && (forall j <- st.running :: j == |st.jobs| - |st.queue| - 1)
    && (forall e <- st.log :: e.job <= |st.jobs| - |st.queue| - 1)
  }

  lemma NextInOrder(st: State, s: Strategy, a: Action)
    requires Inv(st, s) && OneAtATime(st) && Enabled(st, 1, a)
    ensures OneAtATime(Next(st, s, a))
  {
    match a {
      case Take => assert st.running == {};
      case Log(j, legacy) =>
        forall e | e in st.log ensures e.job < j {
          assert Logged(st, e.job);
        }
      case _ =>
    }
  }

  lemma {:induction false} RunInOrder(st: State, s: Strategy, actions: seq<Action>, end: State)
    requires Inv(st, s) && OneAtATime(st) && Run(st, s, 1, actions, end)
    ensures OneAtATime(end)
    decreases |actions|
  {
    if actions != [] {
      NextInv(st, s, 1, actions[0]);
      NextInOrder(st, s, actions[0]);
      RunInOrder(Next(st, s, actions[0]), s, actions[1..], end);
    }
  }

  lemma {:induction false} InOrderIsCounting(log: seq<Entry>, n: nat)
    requires InOrder(log) && |log| == n && forall e <- log :: e.job < n
    ensures forall i :: 0 <= i < n ==> log[i].job == i
  {
    forall i | 0 <= i < n ensures log[i].job == i {
      AtLeast(log, i);
      AtMost(log, n, i);
    }
  }

  lemma {:induction false} AtLeast(log: seq<Entry>, i: nat)
    requires InOrder(log) && i < |log|
    ensures log[i].job >= i
  {
    if i > 0 {
      AtLeast(log, i - 1);
      assert log[i - 1].job < log[i].job;
    }
  }

  lemma {:induction false} AtMost(log: seq<Entry>, n: nat, i: nat)
    requires InOrder(log) && |log| == n && i < n && forall e <- log :: e.job < n
    ensures log[i].job <= i
    decreases n - i
  {
    if i < n - 1 {
      AtMost(log, n, i + 1);
      assert log[i].job < log[i + 1].job;
    } else {
      assert log[i] in log;
    }
  }

  /** With a single worker, the default, the drained log is the list of comparisons in the order
      of the calls, so it depends on the calls and on what the legacy side did for each, and not
      on the interleaving. */
  lemma SingleWorkerLog(s: Strategy, actions: seq<Action>, st: State)
    requires Run(Initial(), s, 1, actions, st) && Enabled(st, 1, WaitReturns)
    ensures |st.log| == |st.jobs| && st.jobs == JobsOf(s, Offered(st))
    ensures forall i :: 0 <= i < |st.log| ==> st.log[i].job == i && st.log[i].record == Compare(st.jobs[i], st.log[i].legacy)
  {
    InitialInv(s);
    RunInv(Initial(), s, 1, actions, st);
    RunInOrder(Initial(), s, actions, st);
    WaitDrains(s, 1, actions, st);
    InOrderIsCounting(st.log, |st.jobs|);
    assert forall i :: 0 <= i < |st.log| ==> st.log[i] in st.log;
  }
}

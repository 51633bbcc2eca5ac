/** The ranking of plan steps in scripts/plan_rebuild_chains.py: a memoised depth-first search
    over the dependencies of each group, and the order in which the steps are replayed. */
module PlanOrder {
  import opened Sorting

  type Id = string

  /** `depends_on` of every group that has a file, in whatever order its set is iterated. An id
      that is mentioned only as a dependency has no entry. */
  type Deps = map<Id, seq<Id>>

  function DepsOf(deps: Deps, g: Id): seq<Id> {
    if g in deps then deps[g] else []
  }

  // ----- chains of dependencies, the reference ---------------------------------------------

  /** Each id depends on the next. */
  predicate Chain(deps: Deps, c: seq<Id>) {
    c != [] && forall i :: 0 <= i < |c| - 1 ==> c[i + 1] in DepsOf(deps, c[i])
  }

  /** `g` depends on `d`, directly or not. */
  ghost predicate DependsOn(deps: Deps, g: Id, d: Id) {
    exists c :: Chain(deps, c) && |c| > 1 && c[0] == g && c[|c| - 1] == d
  }

  ghost predicate Acyclic(deps: Deps) {
    forall g :: !DependsOn(deps, g, g)
  }

  ghost predicate HasChain(deps: Deps, g: Id, n: nat) {
    exists c :: Chain(deps, c) && c[0] == g && |c| == n + 1
  }

  /** The longest chain of dependencies from `g` has `n` steps. */
  ghost predicate Longest(deps: Deps, g: Id, n: nat) {
    HasChain(deps, g, n) && forall m: nat :: HasChain(deps, g, m) ==> m <= n
  }

  lemma LongestUnique(deps: Deps, g: Id, m: nat, n: nat)
    requires Longest(deps, g, m) && Longest(deps, g, n)
    ensures m == n
  {
  }

  lemma ChainCons(deps: Deps, g: Id, c: seq<Id>)
    requires Chain(deps, c) && c[0] in DepsOf(deps, g)
    ensures Chain(deps, [g] + c)
  {
  }

  lemma ChainHead(deps: Deps, c: seq<Id>)
    requires Chain(deps, c)
    ensures |c| > 1 ==> DepsOf(deps, c[0]) != []
  {
    if |c| > 1 {
      assert c[0 + 1] in DepsOf(deps, c[0]);
    }
  }

  /** A group without dependencies is the end of every chain from it. */
  lemma LongestLeaf(deps: Deps, g: Id)
    requires DepsOf(deps, g) == []
    ensures Longest(deps, g, 0)
  {
    assert Chain(deps, [g]);
    forall m: nat | HasChain(deps, g, m) ensures m <= 0 {
      var c :| Chain(deps, c) && c[0] == g && |c| == m + 1;
      ChainHead(deps, c);
    }
  }

  /** One more than the longest among the dependencies. */
  lemma LongestStep(deps: Deps, g: Id, best: nat, d: Id)
    requires d in DepsOf(deps, g) && Longest(deps, d, best)
    requires forall x <- DepsOf(deps, g) :: exists n: nat :: Longest(deps, x, n) && n <= best
    ensures Longest(deps, g, best + 1)
  {
    var c :| Chain(deps, c) && c[0] == d && |c| == best + 1;
    ChainCons(deps, g, c);
    assert Chain(deps, [g] + c) && ([g] + c)[0] == g;
    forall m: nat | HasChain(deps, g, m) ensures m <= best + 1 {
      var e :| Chain(deps, e) && e[0] == g && |e| == m + 1;
      if m > 0 {
        var t := e[1..];
        assert e[1] in DepsOf(deps, e[0]);
        forall i | 0 <= i < |t| - 1 ensures t[i + 1] in DepsOf(deps, t[i]) {
          assert e[i + 1 + 1] in DepsOf(deps, e[i + 1]);
        }
        assert Chain(deps, t) && HasChain(deps, t[0], m - 1);
        var n: nat :| Longest(deps, t[0], n) && n <= best;
      }
    }
  }

  // ----- the search ------------------------------------------------------------------------

  /** All ids there are: the groups and everything they mention. */
  ghost function Ids(deps: Deps): set<Id> {
    deps.Keys + set g, d | g in deps.Keys && d in deps[g] :: d
  }

  /** On an acyclic graph: every rank is the longest chain, and dependencies of ranked ids are
      ranked. */
  ghost predicate Sound(deps: Deps, order: map<Id, nat>) {
    Acyclic(deps) ==>
      forall x <- order.Keys :: Longest(deps, x, order[x]) && forall d <- DepsOf(deps, x) :: d in order
  }

  /** The ids marked but not ranked are the ones of `path`, each depending on the next. */
  ghost predicate OnPath(deps: Deps, visited: set<Id>, order: map<Id, nat>, path: seq<Id>) {
    && visited <= Ids(deps) && visited == order.Keys + (set x | x in path)
    && (forall x <- path :: x !in order)
    && (path != [] ==> Chain(deps, path))
  }

  /** `best` is the highest rank among the first `i` dependencies. */
  ghost predicate BestOf(order: map<Id, nat>, ds: seq<Id>, i: nat, best: nat)
    requires i <= |ds|
  {
    && (forall j :: 0 <= j < i ==> ds[j] in order && order[ds[j]] <= best)
    && (i > 0 ==> exists j :: 0 <= j < i && ds[j] in order && order[ds[j]] == best)
    && (i == 0 ==> best == 0)
  }

  /** On every graph, cyclic or not: a rank is at most the number of ids ranked, and it is zero exactly
      for an id without dependencies. */
  ghost predicate Bounded(deps: Deps, order: map<Id, nat>) {
    forall x <- order.Keys :: AtMost(order[x], order) && (order[x] == 0 <==> DepsOf(deps, x) == [])
  }

  predicate AtMost(rank: nat, order: map<Id, nat>) {
    rank <= |order|
  }

  lemma BoundedOne(deps: Deps, order: map<Id, nat>, g: Id, best: nat)
    requires Bounded(deps, order) && g !in order && AtMost(best, order)
    ensures Bounded(deps, order[g := if DepsOf(deps, g) == [] then 0 else best + 1])
  {
    var rank := if DepsOf(deps, g) == [] then 0 else best + 1;
    var next := order[g := rank];
    assert next.Keys == order.Keys + {g};
    assert |next| == |next.Keys| && |order| == |order.Keys|;
  }

  /** With more ids ranked a rank is within the bound still; so is a new one, and zero. */
  lemma StillAtMost(deps: Deps, before: map<Id, nat>, order: map<Id, nat>, best: nat, d: Id, r: nat)
    requires Extends(order, before) && AtMost(best, before) && Bounded(deps, order)
    requires (d in order && order[d] == r) || r == 0
    ensures AtMost(if r > best then r else best, order)
  {
    assert |order| == |order.Keys| && |before| == |before.Keys|;
    SubsetSize(before.Keys, order.Keys);
  }

  lemma {:induction false} SubsetSize(a: set<Id>, b: set<Id>)
    requires a <= b
    ensures |a| <= |b|
  {
    assert b == a + (b - a);
  }

  ghost predicate Extends(order: map<Id, nat>, before: map<Id, nat>) {
    before.Keys <= order.Keys && forall x <- before.Keys :: order[x] == before[x]
  }

  lemma BestNext(before: map<Id, nat>, order: map<Id, nat>, ds: seq<Id>, i: nat, best: nat, r: nat)
    requires i < |ds| && BestOf(before, ds, i, best) && Extends(order, before)
    requires ds[i] in order && order[ds[i]] == r
    ensures BestOf(order, ds, i + 1, if r > best then r else best)
  {
    if i > 0 && r <= best {
      var j :| 0 <= j < i && ds[j] in before && before[ds[j]] == best;
      assert ds[j] in order && order[ds[j]] == best;
    } else {
      assert ds[i] in order;
    }
  }

  /** Ranking an id once its dependencies are. */
  lemma RankOne(deps: Deps, order: map<Id, nat>, g: Id, best: nat)
    requires Sound(deps, order) && (Acyclic(deps) ==> BestOf(order, DepsOf(deps, g), |DepsOf(deps, g)|, best))
    ensures var rank := if DepsOf(deps, g) == [] then 0 else best + 1;
            Sound(deps, order[g := rank]) && (Acyclic(deps) ==> Longest(deps, g, rank))
  {
    var ds := DepsOf(deps, g);
    if Acyclic(deps) {
      if ds == [] {
        LongestLeaf(deps, g);
      } else {
        var j :| 0 <= j < |ds| && ds[j] in order && order[ds[j]] == best;
        forall x | x in ds ensures exists n: nat :: Longest(deps, x, n) && n <= best {
          var k :| 0 <= k < |ds| && ds[k] == x;
          assert Longest(deps, x, order[x]);
        }
        LongestStep(deps, g, best, ds[j]);
        assert forall d <- ds :: d in order;
      }
    }
  }

  /** Every id that is marked is ranked, or is being ranked: `path` leads from the id the search started
      at to the one at hand. */
  ghost predicate Searching(deps: Deps, visited: set<Id>, order: map<Id, nat>, path: seq<Id>) {
    OnPath(deps, visited, order, path) && Sound(deps, order) && Bounded(deps, order)
  }

  /** What a visit of `g` gives: its rank, or zero while it is being ranked; on an acyclic graph the rank
      is the length of the longest chain. */
  ghost predicate Visited(deps: Deps, order: map<Id, nat>, path: seq<Id>, g: Id, rank: nat) {
    && ((g in order && order[g] == rank) || (g in path && rank == 0))
    && (Acyclic(deps) ==> g in order && order[g] == rank && Longest(deps, g, rank))
  }

  /** `best` is within the bound, and on an acyclic graph the highest rank so far. */
  ghost predicate BestSoFar(deps: Deps, order: map<Id, nat>, ds: seq<Id>, i: nat, best: nat) {
    i <= |ds| && AtMost(best, order) && (Acyclic(deps) ==> BestOf(order, ds, i, best))
  }

  lemma NextBest(deps: Deps, before: map<Id, nat>, order: map<Id, nat>, path: seq<Id>, ds: seq<Id>, i: nat, best: nat,
                 r: nat)
    requires i < |ds| && BestSoFar(deps, before, ds, i, best) && Extends(order, before) && Bounded(deps, order)
    requires Visited(deps, order, path, ds[i], r)
    ensures BestSoFar(deps, order, ds, i + 1, if r > best then r else best)
  {
    StillAtMost(deps, before, order, best, ds[i], r);
    if Acyclic(deps) {
      BestNext(before, order, ds, i, best, r);
    }
  }

  lemma Enter(deps: Deps, visited: set<Id>, order: map<Id, nat>, path: seq<Id>, g: Id)
    requires Searching(deps, visited, order, path) && g in Ids(deps) && g !in visited && Chain(deps, path + [g])
    ensures Searching(deps, visited + {g}, order, path + [g]) && g !in order && g !in path
  {
    assert forall x :: x in path + [g] <==> x in path || x == g;
    assert visited + {g} == order.Keys + (set x | x in path + [g]);
  }

  lemma Leave(deps: Deps, visited: set<Id>, order: map<Id, nat>, path: seq<Id>, g: Id, best: nat)
    requires Searching(deps, visited, order, path + [g]) && g !in path && Chain(deps, path + [g])
    requires BestSoFar(deps, order, DepsOf(deps, g), |DepsOf(deps, g)|, best)
    ensures var rank := if DepsOf(deps, g) == [] then 0 else best + 1;
            && Searching(deps, visited, order[g := rank], path) && Extends(order[g := rank], order)
            && Visited(deps, order[g := rank], path, g, rank)
  {
    var rank := if DepsOf(deps, g) == [] then 0 else best + 1;
    OffPath(deps, visited, order, path, g, rank);
    RankOne(deps, order, g, best);
    BoundedOne(deps, order, g, best);
  }

  lemma OffPath(deps: Deps, visited: set<Id>, order: map<Id, nat>, path: seq<Id>, g: Id, rank: nat)
    requires OnPath(deps, visited, order, path + [g]) && g !in path && Chain(deps, path + [g])
    ensures OnPath(deps, visited, order[g := rank], path) && g !in order
  {
    assert forall x :: x in path + [g] <==> x in path || x == g;
    assert g in path + [g];
    assert visited == order[g := rank].Keys + (set x | x in path);
    ChainFront(deps, path, g);
  }

  lemma ChainFront(deps: Deps, path: seq<Id>, g: Id)
    requires Chain(deps, path + [g])
    ensures path != [] ==> Chain(deps, path)
  {
    forall i | 0 <= i < |path| - 1 ensures path[i + 1] in DepsOf(deps, path[i]) {
      assert (path + [g])[i + 1] in DepsOf(deps, (path + [g])[i]);
    }
  }

  lemma VisitedRanked(deps: Deps, visited: set<Id>, order: map<Id, nat>, path: seq<Id>, g: Id)
    requires Searching(deps, visited, order, path) && g in order
    ensures Visited(deps, order, path, g, order[g])
  {
  }

  lemma VisitedMarked(deps: Deps, visited: set<Id>, order: map<Id, nat>, path: seq<Id>, g: Id)
    requires Searching(deps, visited, order, path) && g in visited && g !in order && Chain(deps, path + [g])
    ensures Visited(deps, order, path, g, 0)
  {
    PathClosesCycle(deps, path, g);
  }

  lemma Startable(deps: Deps, ids: seq<Id>, i: nat)
    requires i < |ids| && forall g :: g in ids <==> g in deps.Keys
    ensures ids[i] in Ids(deps) && Chain(deps, [] + [ids[i]])
  {
    assert ids[i] in ids;
  }

  predicate RankedUpTo(ids: seq<Id>, i: int, order: map<Id, nat>) {
    0 <= i <= |ids| && forall j :: 0 <= j < i ==> ids[j] in order
  }

  lemma RankedMore(ids: seq<Id>, i: nat, before: map<Id, nat>, order: map<Id, nat>)
    requires i < |ids| && RankedUpTo(ids, i, before) && Extends(order, before) && ids[i] in order
    ensures RankedUpTo(ids, i + 1, order)
  {
  }

  lemma AllRanked(deps: Deps, ids: seq<Id>, order: map<Id, nat>)
    requires RankedUpTo(ids, |ids|, order) && forall g :: g in ids <==> g in deps.Keys
    ensures deps.Keys <= order.Keys
  {
  }

  class Ranker {
    const deps: Deps
    var order: map<Id, nat>
    var visited: set<Id>

    constructor (deps: Deps)
      ensures this.deps == deps && order == map[] && visited == {}
    {
      this.deps := deps;
      order, visited := map[], {};
    }

    ghost predicate Valid(path: seq<Id>)
      reads this
    {
      Searching(deps, visited, order, path)
    }

    /** Ranks `g`; on an acyclic graph the rank is the length of the longest chain. It ends on
        every graph, because each call that goes on marks one more id. */
    method Visit(g: Id, ghost path: seq<Id>) returns (rank: nat)
      requires Valid(path) && g in Ids(deps) && Chain(deps, path + [g])
      modifies this
      ensures Valid(path) && old(visited) <= visited && Extends(order, old(order))
      ensures Visited(deps, order, path, g, rank)
      decreases Ids(deps) - visited
    {
      if g in order {
        VisitedRanked(deps, visited, order, path, g);
        return order[g];
      }
      if g in visited {
        VisitedMarked(deps, visited, order, path, g);
        return 0;
      }
      Enter(deps, visited, order, path, g);
      visited := visited + {g};
      var ds := DepsOf(deps, g);
      ghost var here := path + [g];
      var best: nat, i := 0, 0;
      while i < |ds|
        invariant 0 <= i <= |ds| && Valid(here)
        invariant old(visited) + {g} <= visited && Extends(order, old(order))
        invariant BestSoFar(deps, order, ds, i, best)
      {
        ChainSnoc(deps, here, ds[i]);
        ghost var before := order;
        var r := Visit(ds[i], here);
        NextBest(deps, before, order, here, ds, i, best, r);
        best := if r > best then r else best;
        i := i + 1;
      }
      rank := if ds == [] then 0 else best + 1;
      Leave(deps, visited, order, path, g, best);
      order := order[g := rank];
    }

    /** Ranks every group, in order of its id. */
    method RankAll(ids: seq<Id>)
      requires Valid([]) && forall g :: g in ids <==> g in deps.Keys
      modifies this
      ensures Valid([]) && deps.Keys <= order.Keys
    {
      var i := 0;
      while i < |ids|
        invariant 0 <= i <= |ids| && Valid([])
        invariant RankedUpTo(ids, i, order)
      {
        Startable(deps, ids, i);
        ghost var before := order;
        var r := Visit(ids[i], []);
        RankedMore(ids, i, before, order);
        i := i + 1;
      }
      AllRanked(deps, ids, order);
    }
  }

  lemma ChainSnoc(deps: Deps, c: seq<Id>, d: Id)
    requires Chain(deps, c) && d in DepsOf(deps, c[|c| - 1])
    ensures Chain(deps, c + [d])
    ensures d in Ids(deps)
  {
  }

  /** Meeting an id that is still being ranked closes a cycle. */
  lemma PathClosesCycle(deps: Deps, path: seq<Id>, g: Id)
    requires Chain(deps, path + [g]) && g in path
    ensures !Acyclic(deps)
  {
    var i :| 0 <= i < |path| && path[i] == g;
    var c := (path + [g])[i..];
    assert forall k :: 0 <= k < |c| ==> c[k] == (path + [g])[i + k];
    assert Chain(deps, c);
    assert DependsOn(deps, g, g);
  }

  // ----- the replay order ------------------------------------------------------------------

  const UNRANKED := 999

  datatype Step = Step(gid: Id, group: nat, task: nat, priority: int, stepId: string)

  function RankOf(order: map<Id, nat>, g: Id): nat {
    if g in order then order[g] else UNRANKED
  }

  /** The sort key compared: rank of the group, its number, the task's, the priority, the id. */
  predicate StepLe(order: map<Id, nat>, a: Step, b: Step) {
    var ra, rb := RankOf(order, a.gid), RankOf(order, b.gid);
    if ra != rb then ra < rb
    else if a.group != b.group then a.group < b.group
    else if a.task != b.task then a.task < b.task
    else if a.priority != b.priority then a.priority < b.priority
    else StringLe(a.stepId, b.stepId)
  }

  function ByRank(order: map<Id, nat>): (le: (Step, Step) -> bool)
    ensures forall a, b :: le(a, b) <==> StepLe(order, a, b)
  {
    (a, b) => StepLe(order, a, b)
  }

  lemma ByRankPreorder(order: map<Id, nat>)
    ensures TotalPreorder(ByRank(order))
  {
    forall a: Step, b: Step ensures ByRank(order)(a, b) || ByRank(order)(b, a) {
      StringLeTotal(a.stepId, b.stepId);
    }
    forall a: Step, b: Step, c: Step | ByRank(order)(a, b) && ByRank(order)(b, c) ensures ByRank(order)(a, c) {
      if StringLe(a.stepId, b.stepId) && StringLe(b.stepId, c.stepId) {
        StringLeTransitive(a.stepId, b.stepId, c.stepId);
      }
    }
  }

  /** What the order of the sort is for: groups by rank; in a rank by the number of the group, in a
      group by the number of the task, in a task by priority, and then by the id of the step. */
  ghost predicate InOrder(order: map<Id, nat>, a: Step, b: Step) {
    var ra := if a.gid in order then order[a.gid] else 999;
    var rb := if b.gid in order then order[b.gid] else 999;
    var sameGroup := ra == rb && a.group == b.group;
    var sameTask := sameGroup && a.task == b.task;
    && ra <= rb && (ra == rb ==> a.group <= b.group) && (sameGroup ==> a.task <= b.task)
    && (sameTask ==> a.priority <= b.priority)
    && (sameTask && a.priority == b.priority ==> exists i: nat :: FirstDifference(a.stepId, b.stepId, i))
  }

  lemma StepsInOrder(order: map<Id, nat>, steps: seq<Step>)
    ensures var r := Sort(steps, ByRank(order));
            forall i, j :: 0 <= i < j < |r| ==> InOrder(order, r[i], r[j])
  {
    var le := ByRank(order);
    var r := Sort(steps, le);
    ByRankPreorder(order);
    SortSorted(steps, le);
    forall i, j | 0 <= i < j < |r| ensures InOrder(order, r[i], r[j]) {
      assert le(r[i], r[j]);
      StringLeWhen(r[i].stepId, r[j].stepId);
    }
  }

  /** A step whose group has no rank comes behind all ranked ones, cycles or not, as long as fewer than
      999 ids are ranked. */
  lemma UnrankedLast(deps: Deps, order: map<Id, nat>, a: Step, b: Step)
    requires Bounded(deps, order) && |order| < 999 && a.gid !in order && b.gid in order
    ensures !InOrder(order, a, b)
  {
  }

  /** Ranks that `RankAll` leaves behind on an acyclic graph. */
  ghost predicate Ranked(deps: Deps, order: map<Id, nat>) {
    Acyclic(deps) && deps.Keys <= order.Keys && Sound(deps, order)
  }

  lemma {:induction false} ChainRanked(deps: Deps, order: map<Id, nat>, c: seq<Id>)
    requires Ranked(deps, order) && Chain(deps, c) && |c| > 1
    ensures c[|c| - 1] in order && c[0] in order && order[c[0]] > order[c[|c| - 1]]
    decreases |c|
  {
    assert c[0 + 1] in DepsOf(deps, c[0]);
    assert c[0] in deps.Keys;
    var t := c[1..];
    forall i | 0 <= i < |t| - 1 ensures t[i + 1] in DepsOf(deps, t[i]) {
      assert c[i + 1 + 1] in DepsOf(deps, c[i + 1]);
    }
    var n := order[c[1]];
    assert HasChain(deps, c[1], n);
    var e :| Chain(deps, e) && e[0] == c[1] && |e| == n + 1;
    ChainCons(deps, c[0], e);
    assert ([c[0]] + e)[0] == c[0];
    assert HasChain(deps, c[0], n + 1);
    if |c| > 2 {
      ChainRanked(deps, order, t);
    }
  }

  /** In the replay order no step comes before a step of a group that its own group depends on,
      directly or not; nothing is lost or added by ordering. */
  lemma ReplayOrder(deps: Deps, order: map<Id, nat>, steps: seq<Step>)
    requires Ranked(deps, order)
    ensures var r := Sort(steps, ByRank(order));
            && multiset(r) == multiset(steps)
            && forall i, j :: 0 <= i < j < |r| ==> !DependsOn(deps, r[i].gid, r[j].gid)
  {
    var le := ByRank(order);
    var r := Sort(steps, le);
    SortContents(steps, le);
    ByRankPreorder(order);
    SortSorted(steps, le);
    forall i, j | 0 <= i < j < |r| ensures !DependsOn(deps, r[i].gid, r[j].gid) {
      assert le(r[i], r[j]);
      if DependsOn(deps, r[i].gid, r[j].gid) {
        var c :| Chain(deps, c) && |c| > 1 && c[0] == r[i].gid && c[|c| - 1] == r[j].gid;
        ChainRanked(deps, order, c);
      }
    }
  }

  /** On a graph with a cycle no ranking at all can do that: along the cycle some group ranks no
      higher than a group it names as a dependency. */
  lemma {:induction false} NoRankingOnCycle(deps: Deps, order: map<Id, nat>)
    requires !Acyclic(deps)
    ensures exists g, d :: d in DepsOf(deps, g) && RankOf(order, g) <= RankOf(order, d)
  {
    var g :| DependsOn(deps, g, g);
    var c :| Chain(deps, c) && |c| > 1 && c[0] == g && c[|c| - 1] == g;
    if forall i :: 0 <= i < |c| - 1 ==> RankOf(order, c[i]) > RankOf(order, c[i + 1]) {
      Falling(order, c, |c| - 1);
    }
  }

  lemma {:induction false} Falling(order: map<Id, nat>, c: seq<Id>, k: nat)
    requires 0 < k < |c| && forall i :: 0 <= i < |c| - 1 ==> RankOf(order, c[i]) > RankOf(order, c[i + 1])
    ensures RankOf(order, c[0]) > RankOf(order, c[k])
  {
    assert RankOf(order, c[k - 1]) > RankOf(order, c[k - 1 + 1]);
    if k > 1 {
      Falling(order, c, k - 1);
    }
  }

  /** The steps of a plan, ranked and put in replay order. */
  method CollectSteps(deps: Deps, ids: seq<Id>, steps: seq<Step>) returns (ghost order: map<Id, nat>, items: seq<Step>)
    requires forall g :: g in ids <==> g in deps.Keys
    ensures multiset(items) == multiset(steps)
    ensures forall i, j :: 0 <= i < j < |items| ==> InOrder(order, items[i], items[j])
    ensures Acyclic(deps) ==> forall i, j :: 0 <= i < j < |items| ==> !DependsOn(deps, items[i].gid, items[j].gid)
    ensures deps.Keys <= order.Keys && Bounded(deps, order) && (Acyclic(deps) ==> Ranked(deps, order))
  {
    var ranker := new Ranker(deps);
    SortedSetAscending(ids);
    ranker.RankAll(SortedSet(ids));
    order := ranker.order;
    items := Sort(steps, ByRank(ranker.order));
    SortContents(steps, ByRank(order));
    StepsInOrder(order, steps);
    if Acyclic(deps) {
      ReplayOrder(deps, order, steps);
    }
  }
}

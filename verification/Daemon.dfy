/** The daemon manager of ai_editor/cli/cst_compose_crn53pzy.py: start, stop and restart over a
    process table with parent links and a pidfile. Discovery is exact; kills may fail. */
module Daemon {
  import opened Wrappers

  type Pid = nat

  /** Adopts the children of a process that ends. */
  const INIT: Pid := 1

  /** `matches`: the command line is that of a daemon for this configuration. */
  datatype Proc = Proc(parent: Pid, group: Pid, matches: bool)

  type Procs = map<Pid, Proc>

  datatype World = World(procs: Procs, pidfile: Option<Pid>)

  // ----- discovery -------------------------------------------------------------------------

  function Matching(procs: Procs): set<Pid> {
    set p | p in procs && procs[p].matches
  }

  lemma {:induction false} HasLeast(s: set<Pid>)
    requires s != {}
    ensures exists m :: m in s && forall x <- s :: m <= x
  {
    var m :| m in s;
    var rest := s - {m};
    assert s == rest + {m};
    if rest != {} {
      HasLeast(rest);
      var n :| n in rest && forall x <- rest :: n <= x;
      LeastOfTwo(rest, m, n);
    } else {
      assert forall x <- s :: m <= x;
    }
  }

  lemma LeastOfTwo(rest: set<Pid>, m: Pid, n: Pid)
    requires n in rest && forall x <- rest :: n <= x
    ensures exists k :: k in rest + {m} && forall x <- rest + {m} :: k <= x
  {
    var k := if m <= n then m else n;
    assert k in rest + {m} && forall x <- rest + {m} :: k <= x;
  }

  function Least(s: set<Pid>): (m: Pid)
    requires s != {}
    ensures m in s && forall x <- s :: m <= x
  {
    HasLeast(s);
    var m :| m in s && forall x <- s :: m <= x;
    m
  }

  /** `sorted(set(pids))` */
  function Ascending(s: set<Pid>): (r: seq<Pid>)
    ensures forall p :: p in r <==> p in s
  {
    if s == {} then [] else [Least(s)] + Ascending(s - {Least(s)})
  }

  /** Drops the pids whose parent is listed too. */
  function RootsOnly(pids: seq<Pid>, among: set<Pid>, procs: Procs): (r: seq<Pid>)
    requires forall p <- pids :: p in procs
  {
    if pids == [] then []
    else (if procs[pids[0]].parent in among then [] else [pids[0]]) + RootsOnly(pids[1..], among, procs)
  }

  function FindDaemons(procs: Procs): seq<Pid> {
    RootsOnly(Ascending(Matching(procs)), Matching(procs), procs)
  }

  // ----- the root filter -------------------------------------------------------------------

  /** Parents come before children in some numbering, so parent links have no cycle. */
  ghost predicate NumberedBy(procs: Procs, depth: map<Pid, nat>) {
    forall p <- procs :: p in depth
                         && (procs[p].parent in procs ==> procs[p].parent in depth && depth[procs[p].parent] < depth[p])
  }

  ghost predicate Acyclic(procs: Procs) {
    exists depth :: NumberedBy(procs, depth)
  }

  /** From `p` up to `root`, each the parent of the one before, all of them in `among`. */
  predicate Ancestry(procs: Procs, among: set<Pid>, chain: seq<Pid>) {
    && chain != [] && (forall x <- chain :: x in among && x in procs)
    && forall i :: 0 <= i < |chain| - 1 ==> chain[i + 1] == procs[chain[i]].parent
  }

  lemma {:induction false} RootsAre(pids: seq<Pid>, among: set<Pid>, procs: Procs)
    requires forall p <- pids :: p in procs
    ensures forall p :: p in RootsOnly(pids, among, procs) <==> p in pids && procs[p].parent !in among
  {
    if pids != [] {
      RootsAre(pids[1..], among, procs);
      assert pids == [pids[0]] + pids[1..];
    }
  }

  /** Climbing from a matching process ends at a matching one whose parent does not match. */
  lemma {:induction false} Climb(procs: Procs, depth: map<Pid, nat>, p: Pid) returns (chain: seq<Pid>)
    requires NumberedBy(procs, depth) && p in Matching(procs)
    ensures Ancestry(procs, Matching(procs), chain) && chain[0] == p
    ensures procs[chain[|chain| - 1]].parent !in Matching(procs)
    decreases depth[p]
  {
    var q := procs[p].parent;
    if q in Matching(procs) {
      var up := Climb(procs, depth, q);
      chain := [p] + up;
    } else {
      chain := [p];
    }
  }

  /** What discovery keeps: no pid whose parent matched; every matching process hangs below a
      kept one through matching ancestors; and nothing is kept only when nothing matches. */
  lemma RootFilter(procs: Procs)
    requires Acyclic(procs)
    ensures forall p :: p in FindDaemons(procs) <==> p in Matching(procs) && procs[p].parent !in Matching(procs)
    ensures forall p <- Matching(procs) ::
              exists c :: Ancestry(procs, Matching(procs), c) && c[0] == p && c[|c| - 1] in FindDaemons(procs)
    ensures FindDaemons(procs) == [] <==> Matching(procs) == {}
  {
    var m := Matching(procs);
    RootsAre(Ascending(m), m, procs);
    var depth :| NumberedBy(procs, depth);
    forall p | p in m
      ensures exists c :: Ancestry(procs, m, c) && c[0] == p && c[|c| - 1] in FindDaemons(procs)
    {
      var c := Climb(procs, depth, p);
      assert c[|c| - 1] in c;
    }
    if m != {} {
      var p :| p in m;
      var c :| Ancestry(procs, m, c) && c[0] == p && c[|c| - 1] in FindDaemons(procs);
    } else {
      NoneListed(FindDaemons(procs));
    }
  }

  lemma NoneListed(pids: seq<Pid>)
    ensures pids != [] ==> exists p :: p in pids
  {
    if pids != [] {
      assert pids[0] in pids;
    }
  }

  // ----- killing ---------------------------------------------------------------------------

  /** Some processes end; their children go to INIT. */
  function Ended(procs: Procs, gone: set<Pid>): Procs {
    map p | p in procs && p !in gone ::
      if procs[p].parent in gone then procs[p].(parent := INIT) else procs[p]
  }

  function Group(procs: Procs, pid: Pid): set<Pid>
    requires pid in procs
  {
    set p | p in procs && procs[p].group == procs[pid].group
  }

  /** Signals the whole group of `pid`; those of it that are in `dies` end. */
  function KillGroup(procs: Procs, pid: Pid, dies: set<Pid>): Procs {
    if pid in procs then Ended(procs, Group(procs, pid) * dies) else procs
  }

  /** The pidfile's process first, then the daemons found. */
  function StopList(w: World): seq<Pid> {
    match w.pidfile
    case None => FindDaemons(w.procs)
    case Some(pid) => [pid] + Without(FindDaemons(w.procs), pid)
  }

  function Without(pids: seq<Pid>, pid: Pid): (r: seq<Pid>)
    ensures forall p :: p in r <==> p in pids && p != pid
  {
    if pids == [] then []
    else
      assert pids == [pids[0]] + pids[1..];
      (if pids[0] == pid then [] else [pids[0]]) + Without(pids[1..], pid)
  }

  /** One set for every process signalled: who of its group ends. */
  function KillAll(procs: Procs, pids: seq<Pid>, dies: set<Pid>): Procs
    decreases |pids|
  {
    if pids == [] then procs else KillAll(KillGroup(procs, pids[0], dies), pids[1..], dies)
  }

  // ----- the commands ----------------------------------------------------------------------

  /** What a new process does while it is watched: it stays up; it dies before the manager drops
      its handle, which reaps it; or it dies afterwards and is a zombie that still answers. */
  datatype Startup = Stays | DiesAtOnce | DiesUnseen

  /** What the system decides: who survives no signal, the pid of a new process, and how a new
      process starts up. */
  datatype Fate = Fate(dies: set<Pid>, newPid: Pid, startup: Startup)

  datatype Outcome = Outcome(world: World, code: int, spawned: bool)

  function Stop(w: World, fate: Fate): Outcome {
    var pids := StopList(w);
    if pids == [] then Outcome(w, 0, false)
    else Outcome(World(KillAll(w.procs, pids, fate.dies), None), 0, false)
  }

  function Daemonized(fate: Fate): Proc {
    Proc(INIT, fate.newPid, true)
  }

  function Start(w: World, fate: Fate): Outcome {
    var daemons := FindDaemons(w.procs);
    if |daemons| > 1 then Outcome(w, 1, false)
    else if |daemons| == 1 then Outcome(World(w.procs, Some(daemons[0])), 0, false)
    else
      match fate.startup
      case Stays => Outcome(World(w.procs[fate.newPid := Daemonized(fate)], Some(fate.newPid)), 0, true)
      case DiesAtOnce => Outcome(World(w.procs, None), 1, true)
      case DiesUnseen => Outcome(World(w.procs, Some(fate.newPid)), 0, true)
  }

  function Restart(w: World, fate: Fate): Outcome {
    Start(Stop(w, fate).world, fate)
  }

  /** The manager over the process table. */
  class Manager {
    var procs: Procs
    var pidfile: Option<Pid>

    constructor (procs: Procs, pidfile: Option<Pid>)
      ensures this.procs == procs && this.pidfile == pidfile
    {
      this.procs, this.pidfile := procs, pidfile;
    }

    ghost function View(): World
      reads this
    {
      World(procs, pidfile)
    }

    method CmdStop(fate: Fate) returns (code: int)
      modifies this
      ensures (View(), code) == (Stop(old(View()), fate).world, Stop(old(View()), fate).code)
    {
      var pids := StopList(World(procs, pidfile));
      if pids == [] {
        return 0;
      }
      ghost var all := KillAll(procs, pids, fate.dies);
      var i := 0;
      while i < |pids|
        invariant 0 <= i <= |pids| && all == KillAll(procs, pids[i..], fate.dies)
        invariant pidfile == old(pidfile)
      {
        assert pids[i..][1..] == pids[i + 1..];
        procs := KillGroup(procs, pids[i], fate.dies);
        i := i + 1;
      }
      pidfile := None;
      return 0;
    }

    method CmdStart(fate: Fate) returns (code: int, spawned: bool)
      modifies this
      ensures Outcome(View(), code, spawned) == Start(old(View()), fate)
    {
      var daemons := FindDaemons(procs);
      if |daemons| > 1 {
        return 1, false;
      }
      if |daemons| == 1 {
        pidfile := Some(daemons[0]);
        return 0, false;
      }
      pidfile := Some(fate.newPid);
      if fate.startup.Stays? {
        procs := procs[fate.newPid := Daemonized(fate)];
      }
      if fate.startup.DiesAtOnce? {
        pidfile := None;
        return 1, true;
      }
      return 0, true;
    }

    method CmdRestart(fate: Fate) returns (code: int, spawned: bool)
      modifies this
      ensures Outcome(View(), code, spawned) == Restart(old(View()), fate)
    {
      code := CmdStop(fate);
      code, spawned := CmdStart(fate);
    }
  }

  // ----- whole runs ------------------------------------------------------------------------

  /** Commands, and what happens between them: a process ends, or a new one appears below any
      parent, in any group, looking like a daemon or not. */
  datatype Event =
    | CallStart(fate: Fate)
    | CallStop(fate: Fate)
    | CallRestart(fate: Fate)
    | Ends(pid: Pid)
    | Appears(child: Pid, proc: Proc)

  /** A pid the system may hand out: not in use as a process or a group. */
  predicate FreshPid(procs: Procs, pid: Pid) {
    pid != INIT && pid !in procs && forall p <- procs :: procs[p].group != pid
  }

  predicate Possible(w: World, e: Event) {
    match e
    case CallStart(f) => FreshPid(w.procs, f.newPid)
    case CallStop(f) => true
    case CallRestart(f) => FreshPid(w.procs, f.newPid)
    case Ends(p) => true
    case Appears(child, proc) => FreshPid(w.procs, child) && (proc.parent == INIT || proc.parent in w.procs)
  }

  function After(w: World, e: Event): Outcome
    requires Possible(w, e)
  {
    match e
    case CallStart(f) => Start(w, f)
    case CallStop(f) => Stop(w, f)
    case CallRestart(f) => Restart(w, f)
    case Ends(p) => Outcome(w.(procs := Ended(w.procs, {p})), 0, false)
    case Appears(child, proc) => Outcome(w.(procs := w.procs[child := proc]), 0, false)
  }

  predicate PossibleRun(w: World, es: seq<Event>)
    decreases |es|
  {
    es != [] ==> Possible(w, es[0]) && PossibleRun(After(w, es[0]).world, es[1..])
  }

  function RunAll(w: World, es: seq<Event>): World
    requires PossibleRun(w, es)
    decreases |es|
  {
    if es == [] then w else RunAll(After(w, es[0]).world, es[1..])
  }

  /** Parents are alive or INIT, and links are acyclic. */
  ghost predicate Good(procs: Procs) {
    && INIT !in procs && Acyclic(procs)
    && forall p <- procs :: procs[p].parent in procs || procs[p].parent == INIT
  }

  lemma EndedGood(procs: Procs, gone: set<Pid>)
    requires Good(procs)
    ensures Good(Ended(procs, gone))
    ensures Matching(Ended(procs, gone)) == Matching(procs) - gone
  {
    EndedNumbered(procs, gone);
    EndedMatching(procs, gone);
  }

  lemma EndedNumbered(procs: Procs, gone: set<Pid>)
    requires Acyclic(procs) && INIT !in procs
    ensures Acyclic(Ended(procs, gone))
  {
    var depth :| NumberedBy(procs, depth);
    assert NumberedBy(Ended(procs, gone), depth);
  }

  lemma EndedMatching(procs: Procs, gone: set<Pid>)
    ensures Matching(Ended(procs, gone)) == Matching(procs) - gone
  {
    var e := Ended(procs, gone);
    forall p ensures p in Matching(e) <==> p in Matching(procs) && p !in gone {
      assert p in e <==> p in procs && p !in gone;
    }
  }

  lemma {:induction false} KillAllGood(procs: Procs, pids: seq<Pid>, dies: set<Pid>)
    requires Good(procs)
    ensures Good(KillAll(procs, pids, dies))
    ensures KillAll(procs, pids, dies).Keys <= procs.Keys
    ensures forall p <- KillAll(procs, pids, dies) ::
              KillAll(procs, pids, dies)[p].group == procs[p].group && KillAll(procs, pids, dies)[p].matches == procs[p].matches
    decreases |pids|
  {
    if pids != [] {
      var next := KillGroup(procs, pids[0], dies);
      if pids[0] in procs {
        EndedGood(procs, Group(procs, pids[0]) * dies);
      }
      KillAllGood(next, pids[1..], dies);
    }
  }

  lemma AddedGood(procs: Procs, child: Pid, proc: Proc)
    requires Good(procs) && FreshPid(procs, child) && (proc.parent in procs || proc.parent == INIT)
    ensures Good(procs[child := proc])
  {
    var depth :| NumberedBy(procs, depth);
    var d := if proc.parent in procs then depth[proc.parent] + 1 else 0;
    assert NumberedBy(procs[child := proc], depth[child := d]);
  }

  /** Starting spawns exactly when no process matches. */
  lemma StartGood(w: World, fate: Fate)
    requires Good(w.procs) && FreshPid(w.procs, fate.newPid)
    ensures Good(Start(w, fate).world.procs)
    ensures Start(w, fate).spawned <==> Matching(w.procs) == {}
  {
    NoDaemons(w.procs);
    if Matching(w.procs) == {} {
      AddedGood(w.procs, fate.newPid, Daemonized(fate));
    }
  }

  lemma NoDaemons(procs: Procs)
    requires Acyclic(procs)
    ensures FindDaemons(procs) == [] <==> Matching(procs) == {}
  {
    RootFilter(procs);
  }

  lemma StopGood(w: World, fate: Fate)
    requires Good(w.procs)
    ensures var procs := Stop(w, fate).world.procs;
            && Good(procs) && procs.Keys <= w.procs.Keys
            && forall p <- procs :: procs[p].group == w.procs[p].group && procs[p].matches == w.procs[p].matches
  {
    KillAllGood(w.procs, StopList(w), fate.dies);
  }

  lemma AfterGood(w: World, e: Event)
    requires Good(w.procs) && Possible(w, e)
    ensures Good(After(w, e).world.procs)
    ensures After(w, e).spawned ==>
              Matching(if e.CallRestart? then Stop(w, e.fate).world.procs else w.procs) == {}
  {
    match e
    case CallStart(f) => StartGood(w, f);
    case CallStop(f) => StopGood(w, f);
    case CallRestart(f) =>
      StopGood(w, f);
      StartGood(Stop(w, f).world, f);
    case Ends(p) => EndedGood(w.procs, {p});
    case Appears(child, proc) => AddedGood(w.procs, child, proc);
  }

  /** One server over every run: whatever starts, stops and restarts are called, however many
      kills fail and whatever ends or appears in between, a spawn happens only when no process
      matches. */
  lemma {:induction false} OneServer(w: World, es: seq<Event>, e: Event)
    requires Good(w.procs) && PossibleRun(w, es) && Possible(RunAll(w, es), e)
    ensures Good(RunAll(w, es).procs)
    ensures var here := RunAll(w, es);
            After(here, e).spawned ==>
              Matching(if e.CallRestart? then Stop(here, e.fate).world.procs else here.procs) == {}
    decreases |es|
  {
    if es == [] {
      AfterGood(w, e);
    } else {
      AfterGood(w, es[0]);
      OneServer(After(w, es[0]).world, es[1..], e);
    }
  }

  /** All daemons are in one process group. */
  predicate OneGroup(procs: Procs) {
    forall p, q :: p in Matching(procs) && q in Matching(procs) ==> procs[p].group == procs[q].group
  }

  lemma EndedOneGroup(procs: Procs, gone: set<Pid>)
    requires OneGroup(procs)
    ensures OneGroup(Ended(procs, gone))
  {
    EndedMatching(procs, gone);
  }

  lemma StopOneGroup(w: World, fate: Fate)
    requires Good(w.procs) && OneGroup(w.procs)
    ensures OneGroup(Stop(w, fate).world.procs)
  {
    StopGood(w, fate);
    var procs := Stop(w, fate).world.procs;
    assert Matching(procs) <= Matching(w.procs);
  }

  lemma StartOneGroup(w: World, fate: Fate)
    requires Good(w.procs) && OneGroup(w.procs) && FreshPid(w.procs, fate.newPid)
    ensures OneGroup(Start(w, fate).world.procs)
  {
    StartGood(w, fate);
    if Matching(w.procs) == {} {
      Spawned(w.procs, fate);
    }
  }

  /** What looks like a daemon and was not spawned by the manager is a daemon's child in its group. */
  predicate Managed(w: World, e: Event) {
    e.Appears? && e.proc.matches ==>
      e.proc.parent in Matching(w.procs) && e.proc.group == w.procs[e.proc.parent].group
  }

  lemma AppearsOneGroup(procs: Procs, child: Pid, proc: Proc)
    requires OneGroup(procs) && child !in procs
    requires proc.matches ==> proc.parent in Matching(procs) && proc.group == procs[proc.parent].group
    ensures OneGroup(procs[child := proc])
  {
    var added := procs[child := proc];
    forall q | q in Matching(added)
      ensures if q == child then proc.parent in Matching(procs) && added[q].group == procs[proc.parent].group
              else q in Matching(procs) && added[q] == procs[q]
    {
    }
  }

  lemma AfterOneGroup(w: World, e: Event)
    requires Good(w.procs) && OneGroup(w.procs) && Possible(w, e) && Managed(w, e)
    ensures OneGroup(After(w, e).world.procs)
  {
    match e
    case CallStart(f) => StartOneGroup(w, f);
    case CallStop(f) => StopOneGroup(w, f);
    case CallRestart(f) =>
      StopGood(w, f);
      StopOneGroup(w, f);
      StartOneGroup(Stop(w, f).world, f);
    case Ends(p) => EndedOneGroup(w.procs, {p});
    case Appears(child, proc) => AppearsOneGroup(w.procs, child, proc);
  }

  predicate ManagedRun(w: World, es: seq<Event>)
    requires PossibleRun(w, es)
    decreases |es|
  {
    es != [] ==> Managed(w, es[0]) && ManagedRun(After(w, es[0]).world, es[1..])
  }

  /** As long as daemons are only started through the manager, all of them are in one process
      group: there is one server with its workers. */
  lemma {:induction false} OneGroupKept(w: World, es: seq<Event>)
    requires Good(w.procs) && OneGroup(w.procs) && PossibleRun(w, es) && ManagedRun(w, es)
    ensures OneGroup(RunAll(w, es).procs)
    decreases |es|
  {
    if es != [] {
      AfterGood(w, es[0]);
      AfterOneGroup(w, es[0]);
      OneGroupKept(After(w, es[0]).world, es[1..]);
    }
  }

  // ----- what stopping and restarting achieve ----------------------------------------------

  /** Signalling some process of a group reaches everyone in it, whatever was signalled before. */
  lemma {:induction false} KillAllReaches(procs: Procs, pids: seq<Pid>, dies: set<Pid>, r: Pid, p: Pid)
    requires r in pids && r in procs && p in KillAll(procs, pids, dies) && Good(procs)
    requires p in procs && procs[p].group == procs[r].group
    ensures p !in dies
    decreases |pids|
  {
    var next := KillGroup(procs, pids[0], dies);
    KillAllGood(next, pids[1..], dies) by {
      if pids[0] in procs {
        EndedGood(procs, Group(procs, pids[0]) * dies);
      }
    }
    if pids[0] in procs && procs[pids[0]].group == procs[r].group {
      assert p in next;
    } else {
      assert r in next && p in next;
      if pids[0] in procs {
        EndedGood(procs, Group(procs, pids[0]) * dies);
      }
      KillAllReaches(next, pids[1..], dies, r, p);
    }
  }

  /** Who is killed shares the group of a process that was signalled. */
  lemma {:induction false} KillAllSpares(procs: Procs, pids: seq<Pid>, dies: set<Pid>, p: Pid)
    requires Good(procs) && p in procs
    requires forall r <- pids :: r in procs ==> procs[r].group != procs[p].group
    ensures p in KillAll(procs, pids, dies)
    decreases |pids|
  {
    if pids != [] {
      var next := KillGroup(procs, pids[0], dies);
      if pids[0] in procs {
        EndedGood(procs, Group(procs, pids[0]) * dies);
      }
      KillAllSpares(next, pids[1..], dies, p);
    }
  }

  lemma {:induction false} KillAllSparesSurvivors(procs: Procs, pids: seq<Pid>, dies: set<Pid>, p: Pid)
    requires Good(procs) && p in procs && p !in dies
    ensures p in KillAll(procs, pids, dies)
    decreases |pids|
  {
    if pids != [] {
      if pids[0] in procs {
        EndedGood(procs, Group(procs, pids[0]) * dies);
      }
      KillAllSparesSurvivors(KillGroup(procs, pids[0], dies), pids[1..], dies, p);
    }
  }

  /** `p` shares the group of a root daemon, or of the live process that the pidfile names. */
  predicate Reached(w: World, p: Pid)
    requires p in w.procs
  {
    || (exists r <- Matching(w.procs) :: IsRoot(w.procs, r) && w.procs[r].group == w.procs[p].group)
    || (w.pidfile.Some? && w.pidfile.value in w.procs && w.procs[w.pidfile.value].group == w.procs[p].group)
  }

  lemma Signalled(w: World, r: Pid)
    requires Good(w.procs)
    ensures r in StopList(w) <==> IsRoot(w.procs, r) || w.pidfile == Some(r)
  {
    RootsListed(w.procs, r);
  }

  lemma ReachedBySignal(w: World, p: Pid) returns (r: Pid)
    requires Good(w.procs) && p in w.procs && Reached(w, p)
    ensures r in StopList(w) && r in w.procs && w.procs[r].group == w.procs[p].group
  {
    if d :| d in Matching(w.procs) && IsRoot(w.procs, d) && w.procs[d].group == w.procs[p].group {
      r := d;
    } else {
      r := w.pidfile.value;
    }
    Signalled(w, r);
  }

  /** Whom stopping kills, daemons and others alike: exactly those that do not survive a signal and
      share the group of a root daemon or of the live process that the pidfile names. */
  lemma StoppedExactly(w: World, fate: Fate, p: Pid)
    requires Good(w.procs) && p in w.procs
    ensures p !in Stop(w, fate).world.procs <==> p in fate.dies && Reached(w, p)
  {
    var pids := StopList(w);
    if p !in fate.dies {
      KillAllSparesSurvivors(w.procs, pids, fate.dies, p);
    } else if Reached(w, p) {
      var r := ReachedBySignal(w, p);
      if p in KillAll(w.procs, pids, fate.dies) {
        KillAllReaches(w.procs, pids, fate.dies, r, p);
      }
    } else {
      forall r | r in pids && r in w.procs ensures w.procs[r].group != w.procs[p].group {
        Signalled(w, r);
      }
      KillAllSpares(w.procs, pids, fate.dies, p);
    }
  }

  lemma EndedTwice(procs: Procs, a: set<Pid>, b: set<Pid>)
    requires INIT !in procs && b <= procs.Keys
    ensures Ended(Ended(procs, a), b) == Ended(procs, a + b)
  {
    var once, both := Ended(Ended(procs, a), b), Ended(procs, a + b);
    assert INIT !in b;
    forall p ensures p in once <==> p in both {
    }
    forall p | p in once ensures once[p] == both[p] {
    }
  }

  /** Signalling one group after another ends some processes, and that is all it does. */
  lemma {:induction false} KillAllEnds(procs: Procs, pids: seq<Pid>, dies: set<Pid>)
    requires Good(procs)
    ensures KillAll(procs, pids, dies) == Ended(procs, procs.Keys - KillAll(procs, pids, dies).Keys)
    decreases |pids|
  {
    if pids == [] {
      assert Ended(procs, {}) == procs;
    } else {
      var next := KillGroup(procs, pids[0], dies);
      var first := if pids[0] in procs then Group(procs, pids[0]) * dies else {};
      assert next == Ended(procs, first) by {
        assert Ended(procs, {}) == procs;
      }
      EndedGood(procs, first);
      KillAllEnds(next, pids[1..], dies);
      KillAllGood(next, pids[1..], dies);
      var later := next.Keys - KillAll(next, pids[1..], dies).Keys;
      EndedTwice(procs, first, later);
      assert first + later == procs.Keys - KillAll(procs, pids, dies).Keys;
    }
  }

  /** All that stopping does: those it kills end, their children go to INIT, the pidfile is gone, and
      the code is 0. */
  lemma StopIs(w: World, fate: Fate)
    requires Good(w.procs)
    ensures var killed := set p | p in w.procs && p in fate.dies && Reached(w, p);
            Stop(w, fate) == Outcome(World(Ended(w.procs, killed), None), 0, false)
    ensures var after := Stop(w, fate).world.procs;
            forall p <- after :: p in w.procs && after[p].group == w.procs[p].group && after[p].matches == w.procs[p].matches
                              && after[p].parent == if w.procs[p].parent in after then w.procs[p].parent else INIT
  {
    var killed := set p | p in w.procs && p in fate.dies && Reached(w, p);
    var after := Stop(w, fate).world.procs;
    forall p | p in w.procs ensures p !in after <==> p in killed {
      StoppedExactly(w, fate, p);
    }
    KillAllEnds(w.procs, StopList(w), fate.dies);
    KillAllGood(w.procs, StopList(w), fate.dies);
    assert killed == w.procs.Keys - after.Keys;
    if StopList(w) == [] {
      assert KillAll(w.procs, StopList(w), fate.dies) == w.procs;
    }
  }

  /** A daemon below a daemon is in its group, as workers are. */
  predicate WorkersGrouped(procs: Procs) {
    forall p <- Matching(procs) :: procs[p].parent in Matching(procs) ==>
                                     procs[p].group == procs[procs[p].parent].group
  }

  /** Then up a chain of daemons everyone is in the same group. */
  lemma {:induction false} AncestryGroup(procs: Procs, c: seq<Pid>)
    requires WorkersGrouped(procs) && Ancestry(procs, Matching(procs), c)
    ensures procs[c[0]].group == procs[c[|c| - 1]].group
    decreases |c|
  {
    if |c| > 1 {
      assert c[0] in c && c[1] in c && c[0 + 1] == procs[c[0]].parent;
      var up := c[1..];
      forall i | 0 <= i < |up| - 1 ensures up[i + 1] == procs[up[i]].parent {
        assert c[i + 1 + 1] == procs[c[i + 1]].parent;
      }
      assert forall x <- up :: x in c;
      AncestryGroup(procs, up);
    }
  }

  lemma DaemonReached(w: World, d: Pid)
    requires Good(w.procs) && WorkersGrouped(w.procs) && d in Matching(w.procs)
    ensures Reached(w, d)
  {
    var depth :| NumberedBy(w.procs, depth);
    var c := Climb(w.procs, depth, d);
    AncestryGroup(w.procs, c);
    assert c[|c| - 1] in c;
    assert IsRoot(w.procs, c[|c| - 1]);
  }

  /** The daemons that are left: those that survive their signals, and those that left the group of
      the daemon above them. When workers stay in the group, exactly the survivors, however many
      daemons there were. */
  lemma StopEffect(w: World, fate: Fate)
    requires Good(w.procs)
    ensures forall p :: p in Matching(Stop(w, fate).world.procs)
                   <==> p in Matching(w.procs) && !(p in fate.dies && Reached(w, p))
    ensures WorkersGrouped(w.procs) ==> Matching(Stop(w, fate).world.procs) == Matching(w.procs) - fate.dies
  {
    StopGood(w, fate);
    forall p | p in Matching(w.procs)
      ensures p in Stop(w, fate).world.procs <==> !(p in fate.dies && Reached(w, p))
      ensures WorkersGrouped(w.procs) ==> Reached(w, p)
    {
      StoppedExactly(w, fate, p);
      if WorkersGrouped(w.procs) {
        DaemonReached(w, p);
      }
    }
  }

  lemma FreshAfterStop(w: World, fate: Fate)
    requires Good(w.procs) && FreshPid(w.procs, fate.newPid)
    ensures Good(Stop(w, fate).world.procs) && FreshPid(Stop(w, fate).world.procs, fate.newPid)
  {
    StopGood(w, fate);
  }

  /** Strictly increasing, so without repeats. */
  predicate Rising(pids: seq<Pid>) {
    forall i, j :: 0 <= i < j < |pids| ==> pids[i] < pids[j]
  }

  lemma RisingCons(m: Pid, pids: seq<Pid>)
    requires Rising(pids) && forall p <- pids :: m < p
    ensures Rising([m] + pids)
  {
    var r := [m] + pids;
    forall i, j | 0 <= i < j < |r| ensures r[i] < r[j] {
      assert r[j] == pids[j - 1] && pids[j - 1] in pids;
    }
  }

  lemma {:induction false} AscendingRises(s: set<Pid>)
    ensures Rising(Ascending(s))
  {
    if s != {} {
      var m := Least(s);
      AscendingRises(s - {m});
      RisingCons(m, Ascending(s - {m}));
    }
  }

  lemma {:induction false} RootsRise(pids: seq<Pid>, among: set<Pid>, procs: Procs)
    requires Rising(pids) && forall p <- pids :: p in procs
    ensures Rising(RootsOnly(pids, among, procs))
  {
    if pids != [] {
      RootsRise(pids[1..], among, procs);
      RootsAre(pids[1..], among, procs);
      if procs[pids[0]].parent !in among {
        RisingCons(pids[0], RootsOnly(pids[1..], among, procs));
      }
    }
  }

  /** Discovery lists every root once, in increasing order. */
  lemma DaemonsRise(procs: Procs)
    ensures Rising(FindDaemons(procs))
  {
    AscendingRises(Matching(procs));
    RootsRise(Ascending(Matching(procs)), Matching(procs), procs);
  }

  /** A matching process without a matching parent. */
  predicate IsRoot(procs: Procs, p: Pid) {
    p in Matching(procs) && procs[p].parent !in Matching(procs)
  }

  lemma RootsListed(procs: Procs, p: Pid)
    requires Acyclic(procs)
    ensures p in FindDaemons(procs) <==> IsRoot(procs, p)
  {
    RootFilter(procs);
  }

  /** A single root is the one daemon discovery lists. */
  lemma OnlyRoot(procs: Procs, p: Pid)
    requires Acyclic(procs) && IsRoot(procs, p) && forall q :: IsRoot(procs, q) ==> q == p
    ensures FindDaemons(procs) == [p]
  {
    var ds := FindDaemons(procs);
    DaemonsRise(procs);
    RootsListed(procs, p);
    forall i | 0 <= i < |ds| ensures ds[i] == p {
      RootsListed(procs, ds[i]);
    }
    FirstTwoDiffer(ds);
  }

  lemma FirstTwoDiffer(pids: seq<Pid>)
    requires Rising(pids)
    ensures |pids| > 1 ==> pids[0] != pids[1]
  {
  }

  lemma TwoRoots(procs: Procs, p: Pid, q: Pid)
    requires Acyclic(procs) && IsRoot(procs, p) && IsRoot(procs, q) && p != q
    ensures |FindDaemons(procs)| > 1
  {
    RootsListed(procs, p);
    RootsListed(procs, q);
  }

  /** Starting, by what is there: with no matching process one is spawned, and when it stays up it
      is the only daemon and the one in the pidfile; when it dies at once the pidfile is gone and
      the code is 1; when it dies unseen nothing runs, although the code is 0 and the pidfile names
      it. A single root is put in the pidfile; several are an error that changes nothing. */
  lemma StartEffect(w: World, fate: Fate)
    requires Good(w.procs) && FreshPid(w.procs, fate.newPid)
    ensures var s := Start(w, fate);
            && (Matching(w.procs) == {} && fate.startup.Stays? ==>
                  && s == Outcome(World(w.procs[fate.newPid := Proc(INIT, fate.newPid, true)], Some(fate.newPid)), 0, true)
                  && Matching(s.world.procs) == {fate.newPid})
            && (Matching(w.procs) == {} && fate.startup.DiesAtOnce? ==> s == Outcome(World(w.procs, None), 1, true))
            && (Matching(w.procs) == {} && fate.startup.DiesUnseen? ==>
                  s == Outcome(World(w.procs, Some(fate.newPid)), 0, true))
            && (forall p :: IsRoot(w.procs, p) && (forall q :: IsRoot(w.procs, q) ==> q == p) ==>
                  s == Outcome(World(w.procs, Some(p)), 0, false))
            && ((exists p, q :: IsRoot(w.procs, p) && IsRoot(w.procs, q) && p != q) ==> s == Outcome(w, 1, false))
  {
    var s := Start(w, fate);
    NoDaemons(w.procs);
    if Matching(w.procs) == {} && fate.startup.Stays? {
      Spawned(w.procs, fate);
    }
    forall p | IsRoot(w.procs, p) && (forall q :: IsRoot(w.procs, q) ==> q == p)
      ensures s == Outcome(World(w.procs, Some(p)), 0, false)
    {
      OnlyRoot(w.procs, p);
    }
    if p, q :| IsRoot(w.procs, p) && IsRoot(w.procs, q) && p != q {
      TwoRoots(w.procs, p, q);
    }
  }

  /** The exit code of a start tells the truth, 0 with a daemon running and 1 without or with
      several, except when nothing was running and the new process dies unseen. */
  lemma StartCodeTrue(w: World, fate: Fate)
    requires Good(w.procs) && FreshPid(w.procs, fate.newPid)
    ensures var s := Start(w, fate);
            (s.code == 0 <==> |FindDaemons(s.world.procs)| == 1) <==>
              !(Matching(w.procs) == {} && fate.startup.DiesUnseen?)
  {
    StartGood(w, fate);
    NoDaemons(w.procs);
    if Matching(w.procs) == {} && fate.startup.Stays? {
      Spawned(w.procs, fate);
      var after := Start(w, fate).world.procs;
      assert IsRoot(after, fate.newPid);
      OnlyRoot(after, fate.newPid);
    }
  }

  lemma Spawned(procs: Procs, fate: Fate)
    requires Matching(procs) == {} && fate.newPid !in procs
    ensures Matching(procs[fate.newPid := Daemonized(fate)]) == {fate.newPid}
  {
    var added := procs[fate.newPid := Daemonized(fate)];
    forall p ensures p in Matching(added) <==> p == fate.newPid {
      assert p in procs && procs[p].matches ==> p in Matching(procs);
    }
  }

  /** Without a spawn starting changes no process. */
  lemma StartKeeps(w: World, fate: Fate)
    ensures !Start(w, fate).spawned ==> Start(w, fate).world.procs == w.procs
  {
  }

  lemma NoneLeft(a: set<Pid>, b: set<Pid>)
    ensures a - b == {} <==> a <= b
  {
    forall x | x in a ensures x in a - b || x in b {
    }
    if a - b == {} {
      forall x | x in a ensures x in b {
        assert x !in a - b;
      }
    }
  }

  /** Several daemons that have nothing to do with each other are a state like any other: starting
      refuses, and stopping reaches both. */
  lemma TwoDaemons()
    ensures var w := World(map[7 := Proc(INIT, 7, true), 8 := Proc(INIT, 8, true)], None);
            && Good(w.procs) && !OneGroup(w.procs)
            && Start(w, Fate({}, 9, Stays)) == Outcome(w, 1, false)
            && Matching(Stop(w, Fate({7, 8}, 9, Stays)).world.procs) == {}
  {
    var procs: Procs := map[7 := Proc(INIT, 7, true), 8 := Proc(INIT, 8, true)];
    var w := World(procs, None);
    assert NumberedBy(procs, map[7 := 0, 8 := 0]);
    assert 7 in Matching(procs) && 8 in Matching(procs);
    assert WorkersGrouped(procs);
    TwoRoots(procs, 7, 8);
    StopEffect(w, Fate({7, 8}, 9, Stays));
  }

  /** Restarting spawns exactly when every daemon is reached and does not survive; and when the new
      process stays up, it is then the only daemon and the one named in the pidfile. */
  lemma RestartEffect(w: World, fate: Fate)
    requires Good(w.procs) && FreshPid(w.procs, fate.newPid)
    ensures Restart(w, fate).spawned <==> forall p <- Matching(w.procs) :: p in fate.dies && Reached(w, p)
    ensures WorkersGrouped(w.procs) ==> (Restart(w, fate).spawned <==> Matching(w.procs) <= fate.dies)
    ensures Restart(w, fate).spawned && fate.startup.Stays? ==>
              && Matching(Restart(w, fate).world.procs) == {fate.newPid}
              && Restart(w, fate).world.pidfile == Some(fate.newPid) && Restart(w, fate).code == 0
    ensures !Restart(w, fate).spawned ==> Restart(w, fate).world.procs == Stop(w, fate).world.procs
  {
    var left := Matching(Stop(w, fate).world.procs);
    StopEffect(w, fate);
    NoneLeft(Matching(w.procs), fate.dies);
    FreshAfterStop(w, fate);
    StartGood(Stop(w, fate).world, fate);
    StartEffect(Stop(w, fate).world, fate);
    StartKeeps(Stop(w, fate).world, fate);
    forall p | p in Matching(w.procs) ensures p in left || (p in fate.dies && Reached(w, p)) {
    }
  }

  /** A stale pidfile is trusted: stopping may kill a process that is no daemon. */
  lemma StalePidfileKills()
    ensures var w := World(map[7 := Proc(INIT, 7, false)], Some(7));
            Matching(w.procs) == {} && Stop(w, Fate({7}, 9, Stays)).world.procs == map[]
  {
    var procs: Procs := map[7 := Proc(INIT, 7, false)];
    var w := World(procs, Some(7));
    assert Matching(procs) == {};
    assert FindDaemons(procs) == [];
    assert StopList(w) == [7];
    assert KillGroup(procs, 7, {7}) == map[];
    assert [7][1..] == [];
    assert KillAll(procs, [7], {7}) == KillAll(map[], [], {7});
  }
}

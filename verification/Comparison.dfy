/** What a comparison records: adapter/comparison.py reduces both engines' outcomes to one
    mapping for each command, and `CommandTrace.divergence` of adapter/mcp_adapter.py tells them
    apart. */
module Comparison {
  import opened Wrappers
  import opened Sorting

  /** A field of a normalised outcome. */
  datatype Value = Null | Flag(b: bool) | Count(n: nat) | Counts(kinds: multiset<string>) | Names(names: seq<string>)
                 | Text(text: string)

  type Fields = map<string, Value>

  datatype Match = Match(kind: string, name: string)

  // ----- the shared shapes -----------------------------------------------------------------

  function Kinds(ms: seq<Match>): (ks: seq<string>)
    ensures |ks| == |ms|
  {
    seq(|ms|, i requires 0 <= i < |ms| => ms[i].kind)
  }

  function NamesOf(ms: seq<Match>): (ns: seq<string>)
    ensures |ns| == |ms|
  {
    seq(|ms|, i requires 0 <= i < |ms| => ms[i].name)
  }

  /** The shape of a search result: how many, of which kinds, under which names. */
  function MatchShape(ms: seq<Match>): Fields {
    map["total" := Count(|ms|),
        "kind_counts" := Counts(multiset(Kinds(ms))),
        "names" := Names(Sort(NamesOf(ms), StringLe))]
  }

  /** What the new engine answers. */
  datatype Envelope = Success(matches: seq<Match>, byteIdentical: bool) | Failure(code: string)

  const OPEN := "universal_file_open"
  const SEARCH := "universal_file_search"
  const WRITE := "universal_file_write"

  /** None: the new side itself is not comparable for this command. */
  function Normalize(command: string, e: Envelope): Option<Fields> {
    if e.Failure? then Some(map["error" := Text(e.code)])
    else if command == OPEN then Some(map["loaded" := Flag(true)])
    else if command == SEARCH then Some(MatchShape(e.matches))
    else if command == WRITE then Some(map["byte_identical" := Flag(e.byteIdentical)])
    else None
  }

  function FromException(text: string): Fields {
    map["error" := Text(text)]
  }

  /** How the legacy side ends: with a mapping, with a reason why this call cannot be compared,
      or with an exception. */
  datatype Legacy = Returned(fields: Fields) | Declined(reason: string) | Raised(text: string)

  /** What the registered runner of a command may return. */
  ghost predicate RunnerShape(command: string, fields: Fields) {
    if command == OPEN then fields == map["loaded" := Flag(true)]
    else if command == SEARCH then exists ms :: fields == MatchShape(ms)
    else command == WRITE && exists b :: fields == map["byte_identical" := Flag(b)]
  }

  // ----- divergence ------------------------------------------------------------------------

  /** `dict.get` */
  function Get(m: Fields, k: string): Value {
    if k in m then m[k] else Null
  }

  ghost function ListOf(s: set<string>): (r: seq<string>)
    ensures forall k :: k in r <==> k in s
  {
    if s == {} then []
    else
      var k :| k in s;
      [k] + ListOf(s - {k})
  }

  ghost function Differing(was: Fields, now: Fields): set<string> {
    set k | k in was.Keys + now.Keys && Get(was, k) != Get(now, k)
  }

  datatype Diff = Diff(keys: seq<string>, was: Fields, now: Fields)

  ghost function Divergence(was: Fields, now: Fields): Option<Diff> {
    if was == now then None else Some(Diff(SortedSet(ListOf(Differing(was, now))), was, now))
  }

  predicate NoNulls(m: Fields) {
    forall k <- m :: m[k] != Null
  }

  /** A divergence is reported exactly for different mappings, and its key list is sorted, each
      key once, and holds exactly the fields whose values differ. It is empty exactly when
      dropping the null fields makes the two mappings equal, which for mappings without nulls
      never happens. */
  lemma DivergenceKeys(was: Fields, now: Fields)
    ensures Divergence(was, now).None? <==> was == now
    ensures was != now ==>
              var keys := Divergence(was, now).value.keys;
              && Ascending(keys)
              && (forall k :: k in keys <==> k in was.Keys + now.Keys && Get(was, k) != Get(now, k))
              && (keys == [] <==> WithoutNulls(was) == WithoutNulls(now))
    ensures was != now && NoNulls(was) && NoNulls(now) ==> Divergence(was, now).value.keys != []
  {
    if was != now {
      var s := Differing(was, now);
      SortedSetAscending(ListOf(s));
      var keys := SortedSet(ListOf(s));
      assert forall k :: k in keys <==> k in s;
      if keys == [] {
        forall k ensures Get(was, k) == Get(now, k) {
          assert k !in keys;
        }
        if NoNulls(was) && NoNulls(now) {
          SameGets(was, now);
        }
      } else {
        assert keys[0] in keys;
        assert Get(was, keys[0]) != Get(now, keys[0]);
      }
      GetsAgree(was, now);
    }
  }

  /** The fields that say something. */
  function WithoutNulls(m: Fields): Fields {
    map k | k in m && m[k] != Null :: m[k]
  }

  lemma GetsAgree(was: Fields, now: Fields)
    ensures (forall k :: Get(was, k) == Get(now, k)) <==> WithoutNulls(was) == WithoutNulls(now)
  {
    var a, b := WithoutNulls(was), WithoutNulls(now);
    forall k
      ensures k in a <==> Get(was, k) != Null
      ensures k in b <==> Get(now, k) != Null
      ensures k in a ==> a[k] == Get(was, k)
      ensures k in b ==> b[k] == Get(now, k)
    {
    }
    if a == b {
      forall k ensures Get(was, k) == Get(now, k) {
        assert k in a <==> k in b;
      }
    }
  }

  lemma SameGets(was: Fields, now: Fields)
    requires NoNulls(was) && NoNulls(now) && forall k :: Get(was, k) == Get(now, k)
    ensures was == now
  {
    forall k ensures k in was <==> k in now {
      assert Get(was, k) == Get(now, k);
    }
    forall k | k in was ensures was[k] == now[k] {
      assert Get(was, k) == Get(now, k);
    }
  }

  /** A field that is null on one side and absent on the other is a divergence without keys. */
  lemma NullFieldHasNoKeys()
    ensures Divergence(map["x" := Null], map[]) == Some(Diff([], map["x" := Null], map[]))
  {
    var was: Fields, now: Fields := map["x" := Null], map[];
    assert "x" in was;
    DivergenceKeys(was, now);
  }

  // ----- the record of one comparison ------------------------------------------------------

  datatype VerdictKind = Agreement | Diverged | NotComparable

  datatype Record = Record(command: string, params: string, verdict: VerdictKind, was: Option<Fields>,
                           now: Option<Fields>, diff: Option<Diff>, reason: string)

  /** One sampled call, as handed to the worker. */
  datatype Job = Job(command: string, params: string, now: Option<Fields>)

  const NO_RUNNER := "no in-process legacy runner is registered"

  predicate HasRunner(command: string) {
    command == OPEN || command == SEARCH || command == WRITE
  }

  ghost function Compare(job: Job, legacy: Legacy): Record {
    if !HasRunner(job.command) || job.now.None? then
      Record(job.command, job.params, NotComparable, None, job.now, None, NO_RUNNER)
    else if legacy.Declined? then
      Record(job.command, job.params, NotComparable, None, job.now, None, legacy.reason)
    else
      var was := if legacy.Returned? then legacy.fields else FromException(legacy.text);
      var diff := Divergence(was, job.now.value);
      Record(job.command, job.params, if diff.None? then Agreement else Diverged, Some(was), job.now, diff, "")
  }

  lemma ShapesHaveNoNulls(command: string, fields: Fields)
    requires RunnerShape(command, fields)
    ensures NoNulls(fields) && "error" !in fields
  {
  }

  /** For a registered runner that answers with its own shape, or raises: agreement exactly when
      the two outcomes are the same mapping; otherwise a divergence with a non-empty key list;
      and success on one side with failure on the other is always a divergence. */
  lemma VerdictMeaning(command: string, params: string, e: Envelope, legacy: Legacy)
    requires HasRunner(command) && !legacy.Declined?
    requires legacy.Returned? ==> RunnerShape(command, legacy.fields)
    ensures var job := Job(command, params, Normalize(command, e));
            var r := Compare(job, legacy);
            var was := if legacy.Returned? then legacy.fields else FromException(legacy.text);
            && job.now.Some? && r.was == Some(was) && r.now == job.now
            && (r.verdict == Agreement <==> was == job.now.value)
            && (r.verdict != Agreement ==> r.verdict == Diverged && r.diff.Some? && r.diff.value.keys != []
                                           && Ascending(r.diff.value.keys))
            && ((legacy.Returned? <==> e.Failure?) ==> r.verdict == Diverged)
  {
    var now := Normalize(command, e).value;
    var was := if legacy.Returned? then legacy.fields else FromException(legacy.text);
    if e.Success? {
      assert RunnerShape(command, now);
      ShapesHaveNoNulls(command, now);
    }
    if legacy.Returned? {
      ShapesHaveNoNulls(command, legacy.fields);
    }
    assert (legacy.Returned? <==> e.Failure?) ==> ("error" in was <==> "error" !in now);
    DivergenceKeys(was, now);
  }

  // ----- searches agree up to the order of their matches -----------------------------------

  /** Two search results have the same shape exactly when they have the same kinds and the same
      names, each as often: the order of the matches does not count. */
  lemma ShapeIgnoresOrder(a: seq<Match>, b: seq<Match>)
    ensures MatchShape(a) == MatchShape(b)
       <==> multiset(Kinds(a)) == multiset(Kinds(b)) && multiset(NamesOf(a)) == multiset(NamesOf(b))
  {
    var na, nb := Sort(NamesOf(a), StringLe), Sort(NamesOf(b), StringLe);
    StringLePreorder();
    SortContents(NamesOf(a), StringLe);
    SortContents(NamesOf(b), StringLe);
    SortSorted(NamesOf(a), StringLe);
    SortSorted(NamesOf(b), StringLe);
    if multiset(Kinds(a)) == multiset(Kinds(b)) && multiset(NamesOf(a)) == multiset(NamesOf(b)) {
      assert |a| == |multiset(Kinds(a))| && |b| == |multiset(Kinds(b))|;
      StringLeAntisymmetric();
      SortedUnique(na, nb, StringLe);
    }
    if MatchShape(a) == MatchShape(b) {
      assert MatchShape(a)["names"] == MatchShape(b)["names"];
      assert MatchShape(a)["kind_counts"] == MatchShape(b)["kind_counts"];
    }
  }
}

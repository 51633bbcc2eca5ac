/** A batch of local edits on one buffer. Every plan carries offsets of the original source; the
    batch composes because the plans are applied in descending order of their start. */
module BatchEdits {
  import opened SeqLaws
  import opened Wrappers
  import opened TreeRewrite
  import opened TreeEdits
  import opened SourceBuffer

  const BATCH_OPERATIONS := 8

  datatype Edit = Edit(start: nat, end: nat, payload: seq<Byte>)

  // ----- sequential application and the simultaneous splice --------------------------------

  /** One edit after another, each on what the ones before it left; None when a range falls
      outside the buffer. */
  function InTurn(bytes: seq<Byte>, es: seq<Edit>): Option<seq<Byte>>
    decreases |es|
  {
    if es == [] then Some(bytes)
    else if !(es[0].start <= es[0].end <= |bytes|) then None
    else InTurn(Splice(bytes, es[0].start, es[0].end, es[0].payload), es[1..])
  }

  /** Each edit lies entirely to the left of the ones before it. */
  predicate Staircase(es: seq<Edit>) {
    es != [] ==>
      && es[0].start <= es[0].end
      && (forall y <- es[1..] :: y.end <= es[0].start)
      && Staircase(es[1..])
  }

  /** All edits at once: payloads and untouched stretches of the one original source, up to
      position `upto`, with the rightmost edit first in `es`. */
  function AtOnce(source: seq<Byte>, es: seq<Edit>, upto: nat): seq<Byte>
    requires Staircase(es) && upto <= |source| && (es != [] ==> es[0].end <= upto)
  {
    if es == [] then source[..upto]
    else
      assert es[1..] != [] ==> es[1] in es[1..];
      AtOnce(source, es[1..], es[0].start) + es[0].payload + source[es[0].end..upto]
  }

  function Growth(es: seq<Edit>): int {
    if es == [] then 0 else |es[0].payload| - (es[0].end - es[0].start) + Growth(es[1..])
  }

  lemma {:induction false} AtOncePrefix(s: seq<Byte>, s': seq<Byte>, es: seq<Edit>, upto: nat)
    requires Staircase(es) && upto <= |s| && upto <= |s'| && (es != [] ==> es[0].end <= upto)
    requires s[..upto] == s'[..upto]
    ensures AtOnce(s, es, upto) == AtOnce(s', es, upto)
  {
    if es != [] {
      assert es[1..] != [] ==> es[1] in es[1..];
      assert s[..es[0].start] == s[..upto][..es[0].start] == s'[..es[0].start];
      assert s[es[0].end..upto] == s[..upto][es[0].end..] == s'[es[0].end..upto];
      AtOncePrefix(s, s', es[1..], es[0].start);
    }
  }

  /** Text appended after `upto` stays behind whatever happens before it. */
  lemma AtOnceAppend(s: seq<Byte>, rest: seq<Byte>, es: seq<Edit>)
    requires Staircase(es) && (es != [] ==> es[0].end <= |s|)
    ensures AtOnce(s + rest, es, |s + rest|) == AtOnce(s, es, |s|) + rest
  {
    var t := s + rest;
    if es == [] {
      assert t[..|t|] == t && s[..|s|] == s;
    } else {
      var e, below := es[0], es[1..];
      assert below != [] ==> below[0] in below;
      TakeOfConcat(s, rest, e.start);
      AtOncePrefix(t, s, below, e.start);
      DropOfConcat(s, rest, e.end);
      Assoc(AtOnce(s, below, e.start) + e.payload, s[e.end..|s|], rest);
    }
  }

  lemma TakeOfConcat(s: seq<Byte>, rest: seq<Byte>, k: nat)
    requires k <= |s|
    ensures (s + rest)[..k] == s[..k]
  {
  }

  lemma DropOfConcat(s: seq<Byte>, rest: seq<Byte>, k: nat)
    requires k <= |s|
    ensures (s + rest)[k..|s + rest|] == s[k..|s|] + rest
  {
  }

  /** Descending, disjoint edits with their original offsets, applied one after another, give
      the simultaneous splice; no range ever falls outside the buffer. */
  lemma {:induction false} InTurnIsAtOnce(source: seq<Byte>, es: seq<Edit>)
    requires Staircase(es) && (es != [] ==> es[0].end <= |source|)
    ensures InTurn(source, es) == Some(AtOnce(source, es, |source|))
    decreases |es|
  {
    if es == [] {
      assert source[..|source|] == source;
    } else {
      var e := es[0];
      assert es[1..] != [] ==> es[1] in es[1..];
      var head, tail := source[..e.start], e.payload + source[e.end..];
      assert Splice(source, e.start, e.end, e.payload) == head + tail;
      InTurnIsAtOnce(head + tail, es[1..]);
      AtOnceAppend(head, tail, es[1..]);
      AtOncePrefix(head, source, es[1..], e.start);
      var x := AtOnce(source, es[1..], e.start);
      assert source[e.end..|source|] == source[e.end..];
      assert AtOnce(source, es, |source|) == x + e.payload + source[e.end..] == x + tail;
    }
  }

  lemma {:induction false} InTurnLength(source: seq<Byte>, es: seq<Edit>)
    requires InTurn(source, es).Some?
    ensures |InTurn(source, es).value| == |source| + Growth(es)
    decreases |es|
  {
    if es != [] {
      InTurnLength(Splice(source, es[0].start, es[0].end, es[0].payload), es[1..]);
    }
  }

  // ----- choosing and ordering the targets -------------------------------------------------

  datatype Site = Site(node: Node, ancestors: seq<Node>)

  /** A located, non-empty range whose name, if it has one, lies inside it. */
  predicate Ranged(x: Site) {
    && x.node.range.Some? && x.node.range.value.0 < x.node.range.value.1
    && ("name" in x.node.fields && x.node.fields["name"].Single? ==>
          var r := x.node.fields["name"].node.range;
          r.Some? ==> x.node.range.value.0 <= r.value.0 <= r.value.1 <= x.node.range.value.1)
  }

  type Target = x: Site | Ranged(x) witness Site(Node(0, "", Some((0, 1)), map[], []), [])

  function Lo(x: Target): nat {
    x.node.range.value.0
  }

  function Hi(x: Target): nat {
    x.node.range.value.1
  }

  predicate Apart(x: Target, y: Target) {
    Hi(x) <= Lo(y) || Hi(y) <= Lo(x)
  }

  predicate AllApart(xs: seq<Target>) {
    xs != [] ==> (forall y <- xs[1..] :: Apart(xs[0], y)) && AllApart(xs[1..])
  }

  /** Every `step`-th element, from the first. */
  function Strided<T>(xs: seq<T>, step: nat): (r: seq<T>)
    requires step > 0
    ensures forall x <- r :: x in xs
    decreases |xs|
  {
    if xs == [] then []
    else [xs[0]] + (if |xs| <= step then [] else Strided(xs[step..], step))
  }

  function Take<T>(xs: seq<T>, n: nat): seq<T> {
    if |xs| <= n then xs else xs[..n]
  }

  function Stride(n: nat): (step: nat)
    ensures step > 0
  {
    if n / BATCH_OPERATIONS > 1 then n / BATCH_OPERATIONS else 1
  }

  function InsertDescending(x: Target, xs: seq<Target>): (r: seq<Target>)
    ensures forall y :: y in r <==> y == x || y in xs
    ensures |r| == |xs| + 1
  {
    if xs == [] || Lo(x) >= Lo(xs[0]) then [x] + xs
    else
      var r := [xs[0]] + InsertDescending(x, xs[1..]);
      assert xs == [xs[0]] + xs[1..];
      r
  }

  function SortDescending(xs: seq<Target>): (r: seq<Target>)
    ensures forall y :: y in r <==> y in xs
    ensures |r| == |xs|
  {
    if xs == [] then []
    else
      assert xs == [xs[0]] + xs[1..];
      InsertDescending(xs[0], SortDescending(xs[1..]))
  }

  function Chosen(targets: seq<Target>): seq<Target>
  {
    SortDescending(Take(Strided(targets, Stride(|targets|)), BATCH_OPERATIONS))
  }

  lemma {:induction false} StridedLength<T>(xs: seq<T>, step: nat)
    requires step > 0
    ensures |Strided(xs, step)| * step >= |xs|
    decreases |xs|
  {
    if |xs| > step {
      StridedLength(xs[step..], step);
      MulSucc(|Strided(xs[step..], step)|, step);
    } else if xs != [] {
      MulSucc(0, step);
    }
  }

  lemma MulSucc(m: nat, step: nat)
    ensures (1 + m) * step == step + m * step
  {
  }

  lemma {:induction false} StridedByOne<T>(xs: seq<T>)
    ensures Strided(xs, 1) == xs
    decreases |xs|
  {
    if xs != [] {
      HeadTail(xs);
      if |xs| > 1 {
        StridedByOne(xs[1..]);
      }
    }
  }

  function Multiple(step: nat, i: nat): nat {
    if i == 0 then 0 else step + Multiple(step, i - 1)
  }

  lemma {:induction false} MultipleIs(step: nat, i: nat)
    ensures Multiple(step, i) == i * step
  {
    if i > 0 {
      MultipleIs(step, i - 1);
      MulSucc(i - 1, step);
    }
  }

  lemma {:induction false} StridedFrom<T>(xs: seq<T>, step: nat, i: nat)
    requires step > 0 && i < |Strided(xs, step)|
    ensures Multiple(step, i) < |xs| && Strided(xs, step)[i] == xs[Multiple(step, i)]
    decreases |xs|
  {
    if i > 0 {
      StridedFrom(xs[step..], step, i - 1);
    }
  }

  /** The stride takes the elements at its multiples. */
  lemma StridedAt<T>(xs: seq<T>, step: nat, i: nat)
    requires step > 0 && i < |Strided(xs, step)|
    ensures i * step < |xs| && Strided(xs, step)[i] == xs[i * step]
  {
    StridedFrom(xs, step, i);
    MultipleIs(step, i);
  }

  lemma AtLeastEight(m: nat, step: nat)
    requires step > 0 && m * step >= BATCH_OPERATIONS * step
    ensures m >= BATCH_OPERATIONS
  {
    if m < BATCH_OPERATIONS {
      MulLess(m, BATCH_OPERATIONS, step);
    }
  }

  lemma MulLess(a: nat, b: nat, step: nat)
    requires a < b && step > 0
    ensures a * step < b * step
  {
  }

  /** The batch always has eight operations when there are that many targets, and one per
      target otherwise. */
  lemma ChosenCount(targets: seq<Target>)
    ensures |Chosen(targets)| == if |targets| < BATCH_OPERATIONS then |targets| else BATCH_OPERATIONS
  {
    var step := Stride(|targets|);
    StridedLength(targets, step);
    if step == 1 {
      StridedByOne(targets);
    }
    var m := |Strided(targets, step)|;
    if |targets| >= BATCH_OPERATIONS {
      AtLeastEight(m, step);
    }
  }

  lemma {:induction false} DropApart(xs: seq<Target>, k: nat)
    requires k <= |xs| && AllApart(xs)
    ensures AllApart(xs[k..])
  {
    if k > 0 {
      DropApart(xs[1..], k - 1);
      assert xs[1..][k - 1..] == xs[k..];
    } else {
      assert xs[0..] == xs;
    }
  }

  lemma {:induction false} StridedApart(xs: seq<Target>, step: nat)
    requires step > 0 && AllApart(xs)
    ensures AllApart(Strided(xs, step))
    decreases |xs|
  {
    if |xs| > step {
      DropApart(xs, step);
      StridedApart(xs[step..], step);
      assert forall y <- xs[step..] :: y in xs[1..];
      assert Strided(xs, step)[1..] == Strided(xs[step..], step);
    }
  }

  lemma {:induction false} TakeApart(xs: seq<Target>, n: nat)
    requires AllApart(xs)
    ensures AllApart(Take(xs, n))
  {
    if 0 < n < |xs| {
      TakeApart(xs[1..], n - 1);
      assert xs[..n][1..] == Take(xs[1..], n - 1);
    }
  }

  /** Which targets those are: the first, and every further one at a multiple of an eighth of their
      number, eight of them; all of them when there are fewer than sixteen, up to eight. */
  lemma ChosenAre(targets: seq<Target>, x: Target)
    ensures var step := if |targets| < 16 then 1 else |targets| / 8;
            x in Chosen(targets) <==> exists i :: 0 <= i < 8 && i * step < |targets| && targets[i * step] == x
  {
    var step := if |targets| < 16 then 1 else |targets| / 8;
    assert Stride(|targets|) == step;
    var picked := Strided(targets, step);
    forall i | 0 <= i < |picked| ensures i * step < |targets| && picked[i] == targets[i * step] {
      StridedAt(targets, step, i);
    }
    forall i | 0 <= i < 8 && i * step < |targets| ensures i < |picked| {
      StridedReaches(targets, step, i);
    }
  }

  lemma StridedReaches<T>(xs: seq<T>, step: nat, i: nat)
    requires step > 0 && i * step < |xs|
    ensures i < |Strided(xs, step)|
  {
    StridedLength(xs, step);
    var m := |Strided(xs, step)|;
    if m <= i {
      MulLessOrEqual(m, i, step);
    }
  }

  lemma MulLessOrEqual(a: nat, b: nat, step: nat)
    requires a <= b
    ensures a * step <= b * step
  {
  }

  /** Sorted by start, and each entirely to the left of the ones before it. */
  predicate Descending(xs: seq<Target>)
  {
    xs != [] ==> (forall y <- xs[1..] :: Hi(y) <= Lo(xs[0])) && Descending(xs[1..])
  }

  lemma {:induction false} InsertKeepsDescending(x: Target, xs: seq<Target>)
    requires Descending(xs)
    requires forall y <- xs :: Apart(x, y)
    ensures Descending(InsertDescending(x, xs))
  {
    if xs == [] {
    } else if Lo(x) >= Lo(xs[0]) {
      assert ([x] + xs)[1..] == xs;
      forall y | y in xs ensures Hi(y) <= Lo(x) {
        if y != xs[0] {
          assert y in xs[1..];
        }
      }
    } else {
      InsertKeepsDescending(x, xs[1..]);
      assert Apart(x, xs[0]) by { assert xs[0] in xs; }
      assert InsertDescending(x, xs)[1..] == InsertDescending(x, xs[1..]);
    }
  }

  lemma {:induction false} SortIsDescending(xs: seq<Target>)
    requires AllApart(xs)
    ensures Descending(SortDescending(xs))
  {
    if xs != [] {
      SortIsDescending(xs[1..]);
      InsertKeepsDescending(xs[0], SortDescending(xs[1..]));
    }
  }

  lemma ChosenDescending(targets: seq<Target>)
    requires AllApart(targets)
    ensures Descending(Chosen(targets))
    ensures forall x <- Chosen(targets) :: x in targets
  {
    StridedApart(targets, Stride(|targets|));
    TakeApart(Strided(targets, Stride(|targets|)), BATCH_OPERATIONS);
    SortIsDescending(Take(Strided(targets, Stride(|targets|)), BATCH_OPERATIONS));
  }

  // ----- the plans and their edits ---------------------------------------------------------

  /** The four kinds in turn. */
  function BatchKind(i: nat): Kind {
    match i % 4
    case 0 => Replace
    case 1 => Insert
    case 2 => Delete
    case _ => Identifier
  }

  /** None as soon as one plan cannot be made. */
  function PlansFrom(texts: Texts, xs: seq<Target>, i: nat): Option<seq<Plan>>
    decreases |xs|
  {
    if xs == [] then Some([])
    else
      var plan, rest := PlanFor(texts, BatchKind(i), xs[0].node, xs[0].ancestors), PlansFrom(texts, xs[1..], i + 1);
      if plan.None? || rest.None? then None else Some([plan.value] + rest.value)
  }

  /** When a batch can be planned: whoever is to get something inserted before it has a parent, and
      whoever is to be renamed has a name. */
  predicate Plannable(x: Target, i: nat) {
    (i % 4 == 1 ==> x.ancestors != []) && (i % 4 == 3 ==> HasName(x.node))
  }

  lemma {:induction false} PlannedWhen(texts: Texts, xs: seq<Target>, i: nat)
    ensures PlansFrom(texts, xs, i).Some? <==> forall j :: 0 <= j < |xs| ==> Plannable(xs[j], i + j)
    decreases |xs|
  {
    if xs != [] {
      PlannedWhen(texts, xs[1..], i + 1);
      if forall j :: 0 <= j < |xs| ==> Plannable(xs[j], i + j) {
        assert Plannable(xs[0], i + 0);
        forall j | 0 <= j < |xs| - 1 ensures Plannable(xs[1..][j], i + 1 + j) {
          assert Plannable(xs[j + 1], i + (j + 1));
        }
      }
      if PlansFrom(texts, xs, i).Some? {
        forall j | 0 <= j < |xs| ensures Plannable(xs[j], i + j) {
          if j > 0 {
            assert Plannable(xs[1..][j - 1], i + 1 + (j - 1));
          }
        }
      }
    }
  }

  function ToByte(c: char): (b: Byte)
    requires c < 128 as char
    ensures b as char == c
  {
    c as int
  }

  function Encode(s: Ascii): (bytes: seq<Byte>)
    ensures |bytes| == |s| && forall i :: 0 <= i < |s| ==> bytes[i] as char == s[i]
  {
    seq(|s|, i requires 0 <= i < |s| => assert s[i] in s; ToByte(s[i]))
  }

  function EditOf(plan: Plan): (r: seq<Edit>) {
    match plan.edit
    case Some(r) => [Edit(r.0, r.1, Encode(plan.text))]
    case None => []
  }

  function EditsOf(plans: seq<Plan>): seq<Edit> {
    if plans == [] then [] else EditOf(plans[0]) + EditsOf(plans[1..])
  }

  // ----- what a plan does to the bytes -----------------------------------------------------

  /** The buffer half of applying a plan. */
  function BytesAfter(source: seq<Byte>, plan: Plan): Option<seq<Byte>> {
    InTurn(source, EditOf(plan))
  }

  /** The node of a located target whose bytes each kind is about lies inside the source. */
  predicate Located(kind: Kind, node: Node, source: seq<Byte>)
    requires Targeted(kind, node)
  {
    var r := TreeEdits.Target(kind, node).range;
    r.Some? ==> r.value.0 <= r.value.1 <= |source|
  }

  /** What each kind of plan writes, said of the bytes: the fragment in place of the target's bytes,
      or directly before the first of them, or nothing in their place; the statement in place of the
      last line of the body; the new name in place of the name; for an attribute nothing. A last line
      or a name that is not located leaves the bytes alone. */
  lemma PlanBytes(texts: Texts, kind: Kind, node: Node, ancestors: seq<Node>, source: seq<Byte>)
    requires PlanFor(texts, kind, node, ancestors).Some? && Located(kind, node, source)
    ensures var after := BytesAfter(source, PlanFor(texts, kind, node, ancestors).value);
            match TreeEdits.Target(kind, node).range
            case None => after == Some(source)
            case Some(r) =>
              after == Some(match kind
                            case Replace => source[..r.0] + Encode(texts.fragment) + source[r.1..]
                            case Insert => source[..r.0] + Encode(texts.fragment) + source[r.0..]
                            case Delete => source[..r.0] + source[r.1..]
                            case Body => source[..r.0] + Encode(texts.statement) + source[r.1..]
                            case Identifier => source[..r.0] + Encode(texts.name) + source[r.1..]
                            case Attribute => source)
  {
    var plan := PlanFor(texts, kind, node, ancestors).value;
    BatchStep(source, plan, []);
    assert EditOf(plan) + [] == EditOf(plan);
    if plan.edit.Some? {
      var after := Splice(source, plan.edit.value.0, plan.edit.value.1, Encode(plan.text));
      assert InTurn(after, []) == Some(after);
      NothingWritten(source, plan.edit.value.0, plan.edit.value.1);
    }
  }

  lemma NothingWritten(source: seq<Byte>, start: nat, end: nat)
    requires start <= end <= |source|
    ensures Splice(source, start, end, Encode("")) == source[..start] + source[end..]
  {
    assert Encode("") == [];
    assert source[..start] + [] == source[..start];
  }

  /** What each kind of plan costs: nodes touched, from the one that changes to the root and those of
      the fragment, and bytes written. */
  lemma PlanCost(texts: Texts, kind: Kind, node: Node, ancestors: seq<Node>, fragment: Node)
    requires PlanFor(texts, kind, node, ancestors).Some?
    ensures var plan := PlanFor(texts, kind, node, ancestors).value;
            var (touched, written) := CostOf(texts, kind, |ancestors|, |Preorder(fragment)|);
            |plan.chain| + 1 + Extra(plan, fragment) == touched && |plan.text| == written
  {
  }

  /** `depth` ancestors above the target, and a fragment of `size` nodes. */
  function CostOf(texts: Texts, kind: Kind, depth: nat, size: nat): (nat, nat) {
    match kind
    case Replace => (depth + 1 + size, |texts.fragment|)
    case Insert => (depth + size, |texts.fragment|)
    case Delete => (depth + 1, 0)
    case Body => (depth + 3 + size, |texts.statement|)
    case _ => (depth + 2, |texts.name|)
  }

  /** The edit of a plan stays inside the range of its target. */
  lemma EditInside(texts: Texts, x: Target, kind: Kind)
    requires kind != Body && PlanFor(texts, kind, x.node, x.ancestors).Some?
    ensures var edit := PlanFor(texts, kind, x.node, x.ancestors).value.edit;
            edit.Some? ==> Lo(x) <= edit.value.0 <= edit.value.1 <= Hi(x)
  {
  }

  lemma StaircaseOnto(e: Edit, rest: seq<Edit>)
    requires e.start <= e.end && Staircase(rest) && forall y <- rest :: y.end <= e.start
    ensures Staircase([e] + rest)
  {
    ConcatHead([e], rest);
    assert ([e] + rest)[1..] == rest;
  }

  lemma {:induction false} EditsStaircase(texts: Texts, xs: seq<Target>, i: nat, bound: nat)
    requires Descending(xs) && PlansFrom(texts, xs, i).Some?
    requires forall x <- xs :: Hi(x) <= bound
    ensures var es := EditsOf(PlansFrom(texts, xs, i).value);
            Staircase(es) && forall e <- es :: e.end <= bound
    decreases |xs|
  {
    if xs != [] {
      var x := xs[0];
      EditsStaircase(texts, xs[1..], i + 1, Lo(x));
      EditInside(texts, x, BatchKind(i));
      var plans := PlansFrom(texts, xs, i).value;
      var rest := EditsOf(PlansFrom(texts, xs[1..], i + 1).value);
      assert plans[1..] == PlansFrom(texts, xs[1..], i + 1).value;
      assert Hi(x) <= bound;
      var edit := plans[0].edit;
      if edit.Some? {
        StaircaseOnto(Edit(edit.value.0, edit.value.1, Encode(plans[0].text)), rest);
      } else {
        assert EditsOf(plans) == rest;
      }
    }
  }

  // ----- what a batch does to the bytes ----------------------------------------------------

  /** What becomes of the bytes of the target `x` that comes `i`-th in the batch: kinds take turns, in
      the order replace, insert, delete, rename. */
  function Piece(texts: Texts, source: seq<Byte>, x: Target, i: nat): seq<Byte>
    requires Hi(x) <= |source|
  {
    var own := source[Lo(x)..Hi(x)];
    if i % 4 == 0 then Encode(texts.fragment)
    else if i % 4 == 1 then Encode(texts.fragment) + own
    else if i % 4 == 2 then []
    else if HasName(x.node) && x.node.fields["name"].node.range.Some? then
      var name := x.node.fields["name"].node.range.value;
      source[Lo(x)..name.0] + Encode(texts.name) + source[name.1..Hi(x)]
    else own
  }

  /** The source up to `upto` with each target's bytes replaced by their piece and everything between
      the targets kept; the rightmost target comes first in `xs`. */
  function Rewritten(texts: Texts, source: seq<Byte>, xs: seq<Target>, i: nat, upto: nat): seq<Byte>
    requires Descending(xs) && upto <= |source| && forall x <- xs :: Hi(x) <= upto
  {
    if xs == [] then source[..upto]
    else
      var x := xs[0];
      assert Hi(x) <= upto;
      Rewritten(texts, source, xs[1..], i + 1, Lo(x)) + Piece(texts, source, x, i) + source[Hi(x)..upto]
  }

  /** Behind the last edit the simultaneous splice goes on with the source. */
  lemma AtOnceGoesOn(source: seq<Byte>, es: seq<Edit>, upto: nat, more: nat)
    requires Staircase(es) && upto <= more <= |source| && (es != [] ==> es[0].end <= upto)
    ensures AtOnce(source, es, more) == AtOnce(source, es, upto) + source[upto..more]
  {
    if es == [] {
      assert source[..more] == source[..upto] + source[upto..more];
    } else {
      var e := es[0];
      assert es[1..] != [] ==> es[1] in es[1..];
      assert source[e.end..more] == source[e.end..upto] + source[upto..more];
      Assoc(AtOnce(source, es[1..], e.start) + e.payload, source[e.end..upto], source[upto..more]);
    }
  }

  lemma PieceStep(texts: Texts, source: seq<Byte>, x: Target, i: nat, rest: seq<Edit>, upto: nat)
    requires PlanFor(texts, BatchKind(i), x.node, x.ancestors).Some? && Hi(x) <= upto <= |source|
    requires Staircase(rest) && (forall e <- rest :: e.end <= Lo(x))
    ensures var es := EditOf(PlanFor(texts, BatchKind(i), x.node, x.ancestors).value) + rest;
            && Staircase(es) && (es != [] ==> es[0].end <= upto)
            && AtOnce(source, es, upto) == AtOnce(source, rest, Lo(x)) + Piece(texts, source, x, i) + source[Hi(x)..upto]
  {
    var plan := PlanFor(texts, BatchKind(i), x.node, x.ancestors).value;
    var below := AtOnce(source, rest, Lo(x));
    assert rest != [] ==> rest[0] in rest;
    EditInside(texts, x, BatchKind(i));
    if plan.edit.Some? {
      var r := plan.edit.value;
      var e := Edit(r.0, r.1, Encode(plan.text));
      StaircaseOnto(e, rest);
      ConcatHead([e], rest);
      assert ([e] + rest)[1..] == rest;
      AtOnceGoesOn(source, rest, Lo(x), r.0);
      PieceParts(texts, source, x, i, below, upto);
    } else {
      assert EditOf(plan) + rest == rest;
      AtOnceGoesOn(source, rest, Lo(x), upto);
      Between(source, Lo(x), Hi(x), upto);
      Assoc(below, source[Lo(x)..Hi(x)], source[Hi(x)..upto]);
    }
  }

  lemma Between(source: seq<Byte>, a: nat, b: nat, c: nat)
    requires a <= b <= c <= |source|
    ensures source[a..c] == source[a..b] + source[b..c]
  {
  }

  /** The edit of a target, with its surroundings inside the target's range, is its piece. */
  lemma PieceParts(texts: Texts, source: seq<Byte>, x: Target, i: nat, below: seq<Byte>, upto: nat)
    requires PlanFor(texts, BatchKind(i), x.node, x.ancestors).Some? && Hi(x) <= upto <= |source|
    requires PlanFor(texts, BatchKind(i), x.node, x.ancestors).value.edit.Some?
    ensures var plan := PlanFor(texts, BatchKind(i), x.node, x.ancestors).value;
            var (a, b) := plan.edit.value;
            Lo(x) <= a <= b <= Hi(x)
            && (below + source[Lo(x)..a]) + Encode(plan.text) + source[b..upto]
               == below + Piece(texts, source, x, i) + source[Hi(x)..upto]
  {
    EditInside(texts, x, BatchKind(i));
    var plan := PlanFor(texts, BatchKind(i), x.node, x.ancestors).value;
    var (a, b) := plan.edit.value;
    Between(source, b, Hi(x), upto);
    Pieces(below, source[Lo(x)..a], Encode(plan.text), source[b..Hi(x)], source[Hi(x)..upto]);
    assert source[Lo(x)..a] + Encode(plan.text) + source[b..Hi(x)] == Piece(texts, source, x, i);
  }

  lemma Pieces(a: seq<Byte>, b: seq<Byte>, c: seq<Byte>, d: seq<Byte>, e: seq<Byte>)
    ensures (a + b) + c + (d + e) == a + (b + c + d) + e
  {
  }

  /** The edits of a batch make exactly these changes. */
  lemma {:induction false} EditsRewrite(texts: Texts, source: seq<Byte>, xs: seq<Target>, i: nat, upto: nat)
    requires Descending(xs) && upto <= |source| && (forall x <- xs :: Hi(x) <= upto)
    requires PlansFrom(texts, xs, i).Some?
    ensures var es := EditsOf(PlansFrom(texts, xs, i).value);
            && Staircase(es) && (es != [] ==> es[0].end <= upto)
            && AtOnce(source, es, upto) == Rewritten(texts, source, xs, i, upto)
    decreases |xs|
  {
    if xs != [] {
      var x := xs[0];
      assert Hi(x) <= upto;
      EditsRewrite(texts, source, xs[1..], i + 1, Lo(x));
      EditsStaircase(texts, xs[1..], i + 1, Lo(x));
      var plans := PlansFrom(texts, xs, i).value;
      assert plans[1..] == PlansFrom(texts, xs[1..], i + 1).value;
      PieceStep(texts, source, x, i, EditsOf(plans[1..]), upto);
    }
  }

  /** The nodes touched by a batch, target by target. */
  function Costs(texts: Texts, xs: seq<Target>, i: nat, size: nat): nat {
    if xs == [] then 0
    else
      var kind := if i % 4 == 0 then Replace else if i % 4 == 1 then Insert else if i % 4 == 2 then Delete else Identifier;
      CostOf(texts, kind, |xs[0].ancestors|, size).0 + Costs(texts, xs[1..], i + 1, size)
  }

  lemma {:induction false} TotalCosts(texts: Texts, xs: seq<Target>, i: nat, fragment: Node)
    requires PlansFrom(texts, xs, i).Some?
    ensures TotalAffected(PlansFrom(texts, xs, i).value, fragment) == Costs(texts, xs, i, |Preorder(fragment)|)
    decreases |xs|
  {
    if xs != [] {
      var plans := PlansFrom(texts, xs, i).value;
      assert plans[1..] == PlansFrom(texts, xs[1..], i + 1).value;
      TotalCosts(texts, xs[1..], i + 1, fragment);
      PlanCost(texts, BatchKind(i), xs[0].node, xs[0].ancestors, fragment);
    }
  }

  function TotalAffected(plans: seq<Plan>, fragment: Node): nat {
    if plans == [] then 0 else |plans[0].chain| + 1 + Extra(plans[0], fragment) + TotalAffected(plans[1..], fragment)
  }

  function TotalChanged(plans: seq<Plan>): nat {
    if plans == [] then 0 else |plans[0].text| + TotalChanged(plans[1..])
  }

  /** The plans of a batch over any targets with pairwise disjoint ranges form a staircase. */
  lemma BatchStaircase(texts: Texts, targets: seq<Target>, size: nat)
    requires (forall x <- targets :: Hi(x) <= size) && AllApart(targets)
    requires PlansFrom(texts, Chosen(targets), 0).Some?
    ensures var es := EditsOf(PlansFrom(texts, Chosen(targets), 0).value);
            Staircase(es) && (es != [] ==> es[0].end <= size)
  {
    ChosenDescending(targets);
    EditsStaircase(texts, Chosen(targets), 0, size);
  }

  lemma BatchStep(bytes: seq<Byte>, plan: Plan, rest: seq<Edit>)
    ensures plan.edit.None? ==> EditOf(plan) + rest == rest
    ensures plan.edit.Some? ==>
              var r := plan.edit.value;
              InTurn(bytes, EditOf(plan) + rest) ==
                if r.0 <= r.1 <= |bytes| then InTurn(Splice(bytes, r.0, r.1, Encode(plan.text)), rest) else None
  {
    if plan.edit.Some? {
      ConcatHead(EditOf(plan), rest);
      assert EditOf(plan)[1..] + rest == rest;
    }
  }

  /** Runs a batch: one buffer edit and one path rebuild for each plan, in the plans' order. It
      stops at the first edit that is refused; otherwise the buffer holds what the edits leave,
      one after another. */
  method RunBatch(buffer: SourceBuffer, plans: seq<Plan>, fragment: Node)
    returns (affected: nat, changed: nat, refused: bool)
    requires buffer.Valid()
    modifies buffer
    ensures buffer.Valid()
    ensures refused <==> InTurn(old(buffer.Contents()), EditsOf(plans)).None?
    ensures !refused ==> buffer.Contents() == InTurn(old(buffer.Contents()), EditsOf(plans)).value
    ensures !refused ==> affected == TotalAffected(plans, fragment) && changed == TotalChanged(plans)
  {
    ghost var result := InTurn(buffer.Contents(), EditsOf(plans));
    affected, changed, refused := 0, 0, false;
    var i := 0;
    assert plans[0..] == plans;
    while i < |plans|
      invariant 0 <= i <= |plans| && buffer.Valid()
      invariant result == InTurn(buffer.Contents(), EditsOf(plans[i..]))
      invariant affected + TotalAffected(plans[i..], fragment) == TotalAffected(plans, fragment)
      invariant changed + TotalChanged(plans[i..]) == TotalChanged(plans)
    {
      var plan := plans[i];
      PlansFromHere(plans, i, fragment);
      BatchStep(buffer.Contents(), plan, EditsOf(plans[i + 1..]));
      if plan.edit.Some? {
        var r := buffer.ApplyEdit(plan.edit.value.0, plan.edit.value.1, Encode(plan.text));
        if r.Err? {
          refused := true;
          return;
        }
      }
      var root, count := ApplyToTree(plan, fragment);
      affected, changed := affected + count, changed + |plan.text|;
      i := i + 1;
    }
    assert plans[i..] == [];
  }

  lemma PlansFromHere(plans: seq<Plan>, i: nat, fragment: Node)
    requires i < |plans|
    ensures EditsOf(plans[i..]) == EditOf(plans[i]) + EditsOf(plans[i + 1..])
    ensures TotalAffected(plans[i..], fragment)
         == |plans[i].chain| + 1 + Extra(plans[i], fragment) + TotalAffected(plans[i + 1..], fragment)
    ensures TotalChanged(plans[i..]) == |plans[i].text| + TotalChanged(plans[i + 1..])
  {
    assert plans[i..][1..] == plans[i + 1..];
  }

  /** The whole batch case: pick up to eight targets, order them, plan them, and run them on a
      fresh buffer. For targets with pairwise disjoint ranges inside the source, the serialised
      buffer is the source with the bytes of each chosen target rewritten as its turn says. */
  method CaseBatch(texts: Texts, source: seq<Byte>, targets: seq<Target>, fragment: Node)
    returns (bytes: seq<Byte>, affected: nat)
    requires (forall x <- targets :: Hi(x) <= |source|) && AllApart(targets)
    requires PlansFrom(texts, Chosen(targets), 0).Some?
    ensures Descending(Chosen(targets)) && forall x <- Chosen(targets) :: Hi(x) <= |source|
    ensures bytes == Rewritten(texts, source, Chosen(targets), 0, |source|)
    ensures affected == Costs(texts, Chosen(targets), 0, |Preorder(fragment)|)
    ensures |bytes| == |source| + Growth(EditsOf(PlansFrom(texts, Chosen(targets), 0).value))
  {
    BatchStaircase(texts, targets, |source|);
    var plans := PlansFrom(texts, Chosen(targets), 0).value;
    InTurnIsAtOnce(source, EditsOf(plans));
    InTurnLength(source, EditsOf(plans));
    ChosenDescending(targets);
    EditsRewrite(texts, source, Chosen(targets), 0, |source|);
    TotalCosts(texts, Chosen(targets), 0, fragment);
    var buffer := new SourceBuffer(source);
    var changed, refused;
    affected, changed, refused := RunBatch(buffer, plans, fragment);
    bytes := buffer.Serialize();
  }
}

/** Local edits of an immutable tree, as benchmarks/bench_suite.py makes them: only the
    chain of ancestors of the edited node is rebuilt, every other node is shared.

    The reference is the whole-tree substitution `SubstNode`, which visits every node. The
    two are proved equal, and the substitution is proved to replace exactly the target's
    segment of the preorder. */
module TreeRewrite {
  import opened SeqLaws
  import opened Wrappers

  /** A field holds a primitive, one node, or a tuple of nodes. */
  datatype FieldValue = Null | Text(text: string) | Single(node: Node) | Many(nodes: seq<Node>)

  /** `oid` is the identity Python's `is` compares. A rebuilt node keeps the `oid` of the node
      it was rebuilt from; the code compares identities of nodes of the original tree only. */
  datatype Node = Node(oid: nat, kind: string, range: Option<(nat, nat)>,
                       fields: map<string, FieldValue>, children: seq<Node>)

  /** What becomes of the target node. */
  datatype Change = Put(node: Node) | Remove | Before(node: Node)

  // ----- traversal and well-formedness -----------------------------------------------------

  function Preorder(n: Node): (ids: seq<nat>)
    decreases n, 1
  {
    [n.oid] + PreorderAll(n.children)
  }

  function PreorderAll(items: seq<Node>): (ids: seq<nat>)
    decreases items, 0
  {
    if items == [] then [] else Preorder(items[0]) + PreorderAll(items[1..])
  }

  predicate NoRepeats<T(==)>(s: seq<T>) {
    forall i, j :: 0 <= i < j < |s| ==> s[i] != s[j]
  }

  /** No two positions of the tree hold the same node object. */
  predicate Distinct(n: Node) {
    NoRepeats(Preorder(n))
  }

  /** Every node a field mentions is one of the direct children. */
  predicate FieldShared(v: FieldValue, children: seq<Node>) {
    match v
    case Single(x) => x in children
    case Many(xs) => forall x <- xs :: x in children
    case _ => true
  }

  predicate Shared(n: Node)
    decreases n
  {
    && (forall k <- n.fields :: FieldShared(n.fields[k], n.children))
    && forall x <- n.children :: Shared(x)
  }

  /** `chain` runs from a root down to the parent of `was`. */
  predicate IsChain(chain: seq<Node>, was: Node) {
    && (forall i :: 0 <= i < |chain| - 1 ==> chain[i + 1] in chain[i].children)
    && (chain != [] ==> was in chain[|chain| - 1].children)
  }

  function RootOf(chain: seq<Node>, was: Node): Node {
    if chain == [] then was else chain[0]
  }

  // ----- the local edit --------------------------------------------------------------------

  /** The nodes that stand where `x` stood. */
  function Outcome(c: Change, x: Node): seq<Node> {
    match c
    case Put(m) => [m]
    case Remove => []
    case Before(m) => [m, x]
  }

  function Rewrite(items: seq<Node>, was: Node, c: Change): seq<Node> {
    if items == [] then []
    else (if items[0].oid == was.oid then Outcome(c, items[0]) else [items[0]]) + Rewrite(items[1..], was, c)
  }

  function RebuildField(v: FieldValue, was: Node, c: Change): FieldValue {
    match v
    case Single(x) =>
      if x.oid == was.oid && !c.Before? then (if c.Put? then Single(c.node) else Null) else v
    case Many(xs) =>
      if exists x <- xs :: x.oid == was.oid then Many(Rewrite(xs, was, c)) else v
    case _ => v
  }

  function RebuildParent(parent: Node, was: Node, c: Change): Node {
    parent.(fields := map k | k in parent.fields :: RebuildField(parent.fields[k], was, c),
            children := Rewrite(parent.children, was, c))
  }

  function AsChange(made: Option<Node>): Change {
    match made
    case Some(m) => Put(m)
    case None => Remove
  }

  /** The rebuilt root, from the innermost ancestor outwards. */
  function RebuildUp(chain: seq<Node>, was: Node, made: Option<Node>): Option<Node>
    decreases |chain|
  {
    if chain == [] then made
    else
      var parent := chain[|chain| - 1];
      RebuildUp(chain[..|chain| - 1], parent, Some(RebuildParent(parent, was, AsChange(made))))
  }

  // ----- the whole-tree substitution -------------------------------------------------------

  function SubstNode(n: Node, t: nat, c: Change): (r: seq<Node>)
    ensures n.oid != t ==> |r| == 1 && r[0].oid == n.oid
    decreases n, 1
  {
    if n.oid == t then Outcome(c, n)
    else [n.(fields := map k | k in n.fields :: SubstField(n.fields[k], t, c),
             children := SubstAll(n.children, t, c))]
  }

  function SubstField(v: FieldValue, t: nat, c: Change): FieldValue
    decreases v, 0
  {
    match v
    case Single(x) =>
      if x.oid != t then Single(SubstNode(x, t, c)[0])
      else if c.Before? then v
      else if c.Put? then Single(c.node) else Null
    case Many(xs) => Many(SubstAll(xs, t, c))
    case _ => v
  }

  function SubstAll(items: seq<Node>, t: nat, c: Change): seq<Node>
    decreases items, 0
  {
    if items == [] then [] else SubstNode(items[0], t, c) + SubstAll(items[1..], t, c)
  }

  // ----- membership in the preorder --------------------------------------------------------

  lemma {:induction false} ChildIdsInPreorder(items: seq<Node>, x: Node, id: nat)
    requires x in items && id in Preorder(x)
    ensures id in PreorderAll(items)
  {
    if items[0] != x {
      ChildIdsInPreorder(items[1..], x, id);
    }
  }

  lemma RootInPreorder(n: Node)
    ensures n.oid in Preorder(n)
  {
    assert Preorder(n)[0] == n.oid;
  }

  lemma NoRepeatsSplit<T>(a: seq<T>, b: seq<T>)
    requires NoRepeats(a + b)
    ensures NoRepeats(a) && NoRepeats(b)
    ensures forall x <- a :: x !in b
  {
    var s := a + b;
    forall i, j | 0 <= i < j < |a| ensures a[i] != a[j] {
      assert s[i] == a[i] && s[j] == a[j];
    }
    forall i, j | 0 <= i < j < |b| ensures b[i] != b[j] {
      assert s[|a| + i] == b[i] && s[|a| + j] == b[j];
    }
    forall i, j | 0 <= i < |a| && 0 <= j < |b| ensures a[i] != b[j] {
      assert s[i] == a[i] && s[|a| + j] == b[j];
    }
  }

  /** In a forest without repeats an id belongs to one tree only. */
  lemma {:induction false} OwnerUnique(items: seq<Node>, x: Node, y: Node, id: nat)
    requires NoRepeats(PreorderAll(items))
    requires x in items && y in items && id in Preorder(x) && id in Preorder(y)
    ensures x == y
  {
    NoRepeatsSplit(Preorder(items[0]), PreorderAll(items[1..]));
    if x != y {
      if items[0] == x {
        ChildIdsInPreorder(items[1..], y, id);
      } else if items[0] == y {
        ChildIdsInPreorder(items[1..], x, id);
      } else {
        OwnerUnique(items[1..], x, y, id);
      }
    }
  }

  lemma {:induction false} ForestMembersDistinct(items: seq<Node>, x: Node)
    requires NoRepeats(PreorderAll(items)) && x in items
    ensures Distinct(x)
  {
    NoRepeatsSplit(Preorder(items[0]), PreorderAll(items[1..]));
    if x != items[0] {
      ForestMembersDistinct(items[1..], x);
    }
  }

  lemma ChildDistinct(n: Node, x: Node)
    requires Distinct(n) && x in n.children
    ensures Distinct(x) && NoRepeats(PreorderAll(n.children)) && n.oid !in Preorder(x)
  {
    NoRepeatsSplit([n.oid], PreorderAll(n.children));
    ForestMembersDistinct(n.children, x);
    assert n.oid in [n.oid];
    if n.oid in Preorder(x) {
      ChildIdsInPreorder(n.children, x, n.oid);
    }
  }

  // ----- subtrees off the path are untouched -----------------------------------------------

  /** Substituting for a node that is not in a tree gives the very same tree. */
  lemma {:induction false} Untouched(n: Node, t: nat, c: Change)
    requires Shared(n) && t !in Preorder(n)
    ensures SubstNode(n, t, c) == [n]
    decreases n
  {
    RootInPreorder(n);
    forall x | x in n.children ensures SubstNode(x, t, c) == [x] {
      if t in Preorder(x) {
        ChildIdsInPreorder(n.children, x, t);
      }
      Untouched(x, t, c);
    }
    SubstAllSame(n.children, t, c);
    forall k | k in n.fields ensures SubstField(n.fields[k], t, c) == n.fields[k] {
      assert FieldShared(n.fields[k], n.children);
      match n.fields[k] {
        case Single(x) => RootInPreorder(x); if x.oid == t { ChildIdsInPreorder(n.children, x, t); }
        case Many(xs) => SubstAllSame(xs, t, c);
        case _ =>
      }
    }
    assert (map k | k in n.fields :: SubstField(n.fields[k], t, c)) == n.fields;
  }

  lemma {:induction false} SubstAllSame(items: seq<Node>, t: nat, c: Change)
    requires forall x <- items :: SubstNode(x, t, c) == [x]
    ensures SubstAll(items, t, c) == items
  {
    if items != [] {
      SubstAllSame(items[1..], t, c);
      assert items == [items[0]] + items[1..];
    }
  }

  // ----- one level: rebuilding the parent is the substitution ------------------------------

  lemma {:induction false} RewriteIsSubst(items: seq<Node>, was: Node, t: nat, c: Change, c': Change)
    requires forall x <- items :: x.oid == was.oid ==> SubstNode(x, t, c) == Outcome(c', x)
    requires forall x <- items :: x.oid != was.oid ==> SubstNode(x, t, c) == [x]
    ensures Rewrite(items, was, c') == SubstAll(items, t, c)
  {
    if items != [] {
      RewriteIsSubst(items[1..], was, t, c, c');
    }
  }

  /** If `c'` is what the substitution makes of the child `was`, then rebuilding the parent
      around `was` is what the substitution makes of the parent. */
  lemma ParentStep(p: Node, was: Node, t: nat, c: Change, c': Change)
    requires Distinct(p) && Shared(p) && was in p.children && t in Preorder(was)
    requires SubstNode(was, t, c) == Outcome(c', was)
    requires if was.oid == t then c' == c else c'.Put?
    ensures SubstNode(p, t, c) == [RebuildParent(p, was, c')]
  {
    ChildDistinct(p, was);
    assert p.oid != t;
    RootInPreorder(was);
    forall x | x in p.children
      ensures x.oid == was.oid ==> x == was
      ensures x.oid != was.oid ==> SubstNode(x, t, c) == [x] && x.oid != t
    {
      RootInPreorder(x);
      if x.oid == was.oid {
        OwnerUnique(p.children, x, was, was.oid);
      } else {
        if t in Preorder(x) {
          OwnerUnique(p.children, x, was, t);
        }
        Untouched(x, t, c);
      }
    }
    RewriteIsSubst(p.children, was, t, c, c');
    FieldsStep(p, was, t, c, c');
    assert RebuildParent(p, was, c').fields == SubstNode(p, t, c)[0].fields;
  }

  /** The fields of the parent change as its children do. */
  lemma FieldsStep(p: Node, was: Node, t: nat, c: Change, c': Change)
    requires Shared(p) && (if was.oid == t then c' == c else c'.Put?)
    requires SubstNode(was, t, c) == Outcome(c', was)
    requires forall x <- p.children :: x.oid == was.oid ==> x == was
    requires forall x <- p.children :: x.oid != was.oid ==> SubstNode(x, t, c) == [x] && x.oid != t
    ensures forall k <- p.fields :: RebuildField(p.fields[k], was, c') == SubstField(p.fields[k], t, c)
  {
    forall k | k in p.fields
      ensures RebuildField(p.fields[k], was, c') == SubstField(p.fields[k], t, c)
    {
      assert FieldShared(p.fields[k], p.children);
      match p.fields[k] {
        case Single(x) =>
        case Many(xs) =>
          RewriteIsSubst(xs, was, t, c, c');
          if forall x <- xs :: x.oid != was.oid {
            SubstAllSame(xs, t, c);
          }
        case _ =>
      }
    }
  }

  // ----- the whole path --------------------------------------------------------------------

  lemma {:induction false} ChainReaches(chain: seq<Node>, was: Node, id: nat)
    requires IsChain(chain, was) && id in Preorder(was)
    ensures id in Preorder(RootOf(chain, was))
    decreases |chain|
  {
    if chain != [] {
      var parent := chain[|chain| - 1];
      ChildIdsInPreorder(parent.children, was, id);
      assert id in Preorder(parent);
      ChainReaches(chain[..|chain| - 1], parent, id);
    }
  }

  lemma {:induction false} ChainWellFormed(chain: seq<Node>, was: Node)
    requires IsChain(chain, was)
    requires Distinct(RootOf(chain, was)) && Shared(RootOf(chain, was))
    ensures Distinct(was) && Shared(was)
    ensures forall p <- chain :: Distinct(p) && Shared(p)
    decreases |chain|
  {
    if chain != [] {
      var parent := chain[|chain| - 1];
      ChainWellFormed(chain[..|chain| - 1], parent);
      ChildDistinct(parent, was);
    }
  }

  /** Generalised over how deep the target lies under `was`. */
  lemma {:induction false} RebuildUpIsSubst(chain: seq<Node>, was: Node, t: nat, c: Change, made: Option<Node>)
    requires IsChain(chain, was) && t in Preorder(was)
    requires Distinct(RootOf(chain, was)) && Shared(RootOf(chain, was))
    requires SubstNode(was, t, c) == Outcome(AsChange(made), was)
    requires if was.oid == t then AsChange(made) == c else made.Some?
    ensures var r := RebuildUp(chain, was, made);
            SubstNode(RootOf(chain, was), t, c) == if r.Some? then [r.value] else []
    decreases |chain|
  {
    if chain != [] {
      ChainWellFormed(chain, was);
      var parent := chain[|chain| - 1];
      ParentStep(parent, was, t, c, AsChange(made));
      ChildIdsInPreorder(parent.children, was, t);
      ChildDistinct(parent, was);
      assert t in Preorder(parent);
      RebuildUpIsSubst(chain[..|chain| - 1], parent, t, c, Some(RebuildParent(parent, was, AsChange(made))));
    }
  }

  /** Replacing or dropping a node by rebuilding its ancestor chain is the substitution over
      the whole tree. */
  lemma PathRebuildIsSubst(chain: seq<Node>, was: Node, made: Option<Node>)
    requires IsChain(chain, was)
    requires Distinct(RootOf(chain, was)) && Shared(RootOf(chain, was))
    ensures var r := RebuildUp(chain, was, made);
            SubstNode(RootOf(chain, was), was.oid, AsChange(made)) == if r.Some? then [r.value] else []
  {
    RootInPreorder(was);
    RebuildUpIsSubst(chain, was, was.oid, AsChange(made), made);
  }

  /** Inserting before `anchor` by rebuilding its parent, then the chain above the parent. */
  lemma InsertRebuildIsSubst(chain: seq<Node>, parent: Node, anchor: Node, made: Node)
    requires IsChain(chain, parent) && anchor in parent.children
    requires Distinct(RootOf(chain, parent)) && Shared(RootOf(chain, parent))
    ensures var r := RebuildUp(chain, parent, Some(RebuildParent(parent, anchor, Before(made))));
            r.Some? && SubstNode(RootOf(chain, parent), anchor.oid, Before(made)) == [r.value]
  {
    ChainWellFormed(chain, parent);
    ChildDistinct(parent, anchor);
    RootInPreorder(anchor);
    ParentStep(parent, anchor, anchor.oid, Before(made), Before(made));
    ChildIdsInPreorder(parent.children, anchor, anchor.oid);
    assert anchor.oid in Preorder(parent);
    RebuildUpIsSubst(chain, parent, anchor.oid, Before(made),
                     Some(RebuildParent(parent, anchor, Before(made))));
    RebuildUpSome(chain, parent, RebuildParent(parent, anchor, Before(made)));
  }

  lemma {:induction false} RebuildUpSome(chain: seq<Node>, was: Node, made: Node)
    ensures RebuildUp(chain, was, Some(made)).Some?
    decreases |chain|
  {
    if chain != [] {
      var parent := chain[|chain| - 1];
      RebuildUpSome(chain[..|chain| - 1], parent, RebuildParent(parent, was, Put(made)));
    }
  }

  // ----- what the edit does to the preorder ------------------------------------------------

  lemma {:induction false} PreorderConcat(a: seq<Node>, b: seq<Node>)
    ensures PreorderAll(a + b) == PreorderAll(a) + PreorderAll(b)
  {
    if a == [] {
      assert a + b == b;
    } else {
      PreorderConcat(a[1..], b);
      ConcatHead(a, b);
      Assoc(Preorder(a[0]), PreorderAll(a[1..]), PreorderAll(b));
    }
  }

  lemma {:induction false} SubstConcat(a: seq<Node>, b: seq<Node>, t: nat, c: Change)
    ensures SubstAll(a + b, t, c) == SubstAll(a, t, c) + SubstAll(b, t, c)
  {
    if a == [] {
      assert a + b == b;
    } else {
      SubstConcat(a[1..], b, t, c);
      ConcatHead(a, b);
      Assoc(SubstNode(a[0], t, c), SubstAll(a[1..], t, c), SubstAll(b, t, c));
    }
  }

  lemma PreorderAround(a: seq<Node>, mid: seq<Node>, b: seq<Node>)
    ensures PreorderAll(a + mid + b) == PreorderAll(a) + PreorderAll(mid) + PreorderAll(b)
  {
    PreorderConcat(a + mid, b);
    PreorderConcat(a, mid);
  }

  /** An id of one child occurs on neither side of it. */
  lemma NotBeside(a: seq<Node>, child: Node, b: seq<Node>, t: nat)
    requires NoRepeats(PreorderAll(a + [child] + b)) && t in Preorder(child)
    ensures t !in PreorderAll(a) && t !in PreorderAll(b)
  {
    PreorderAround(a, [child], b);
    SingletonPreorder(child);
    NoRepeatsSplit(PreorderAll(a) + Preorder(child), PreorderAll(b));
    NoRepeatsSplit(PreorderAll(a), Preorder(child));
  }

  lemma SubstBetween(a: seq<Node>, child: Node, b: seq<Node>, t: nat, c: Change)
    requires SubstAll(a, t, c) == a && SubstAll(b, t, c) == b
    ensures SubstAll(a + [child] + b, t, c) == a + SubstNode(child, t, c) + b
  {
    SubstConcat(a + [child], b, t, c);
    SubstConcat(a, [child], t, c);
    SubstSingleton(child, t, c);
  }

  lemma SubstSingleton(child: Node, t: nat, c: Change)
    ensures SubstAll([child], t, c) == SubstNode(child, t, c)
  {
    assert SubstAll([child][1..], t, c) == [];
    assert SubstNode(child, t, c) + [] == SubstNode(child, t, c);
  }

  /** Only the child that holds the target changes among the children of its parent. */
  lemma SubstAround(p: Node, i: nat, t: nat, c: Change)
    requires Distinct(p) && Shared(p) && i < |p.children| && t in Preorder(p.children[i])
    ensures SubstAll(p.children, t, c) == p.children[..i] + SubstNode(p.children[i], t, c) + p.children[i + 1..]
    ensures p.oid != t
  {
    var child, a, b := p.children[i], p.children[..i], p.children[i + 1..];
    assert p.children == a + [child] + b;
    ChildDistinct(p, child);
    NotBeside(a, child, b, t);
    ForestUntouched(a, t, c);
    ForestUntouched(b, t, c);
    SubstBetween(a, child, b, t, c);
  }

  /** The preorder of a parent and of what the substitution makes of it, child by child. */
  lemma ParentPreorder(p: Node, i: nat, t: nat, c: Change)
    requires Distinct(p) && Shared(p) && i < |p.children| && t in Preorder(p.children[i])
    ensures var a, b := PreorderAll(p.children[..i]), PreorderAll(p.children[i + 1..]);
            && Preorder(p) == [p.oid] + (a + Preorder(p.children[i]) + b)
            && PreorderAll(SubstNode(p, t, c)) == [p.oid] + (a + PreorderAll(SubstNode(p.children[i], t, c)) + b)
  {
    var child, a, b := p.children[i], p.children[..i], p.children[i + 1..];
    assert p.children == a + [child] + b;
    PreorderAround(a, [child], b);
    SingletonPreorder(child);
    SubstAround(p, i, t, c);
    PreorderAround(a, SubstNode(child, t, c), b);
    SingletonPreorder(SubstNode(p, t, c)[0]);
  }

  /** The children around the one that holds the target contribute what they did before. */
  lemma SegmentInParent(p: Node, child: Node, target: Node, c: Change, pre: seq<nat>, post: seq<nat>)
    returns (pre': seq<nat>, post': seq<nat>)
    requires Distinct(p) && Shared(p) && child in p.children && target.oid in Preorder(child)
    requires Preorder(child) == pre + Preorder(target) + post
    requires PreorderAll(SubstNode(child, target.oid, c)) == pre + PreorderAll(Outcome(c, target)) + post
    ensures Preorder(p) == pre' + Preorder(target) + post'
    ensures PreorderAll(SubstNode(p, target.oid, c)) == pre' + PreorderAll(Outcome(c, target)) + post'
  {
    var t := target.oid;
    var i :| 0 <= i < |p.children| && p.children[i] == child;
    var a, b := p.children[..i], p.children[i + 1..];
    ParentPreorder(p, i, t, c);
    Regroup(p.oid, PreorderAll(a), pre, Preorder(target), post, PreorderAll(b));
    Regroup(p.oid, PreorderAll(a), pre, PreorderAll(Outcome(c, target)), post, PreorderAll(b));
    pre' := [p.oid] + PreorderAll(a) + pre;
    post' := post + PreorderAll(b);
  }

  lemma SingletonPreorder(n: Node)
    ensures PreorderAll([n]) == Preorder(n)
  {
  }

  lemma Regroup<T>(x: T, a: seq<T>, pre: seq<T>, mid: seq<T>, post: seq<T>, b: seq<T>)
    ensures [x] + (a + (pre + mid + post) + b) == ([x] + a + pre) + mid + (post + b)
  {
  }

  lemma ForestUntouched(items: seq<Node>, t: nat, c: Change)
    requires t !in PreorderAll(items) && forall x <- items :: Shared(x)
    ensures SubstAll(items, t, c) == items
  {
    forall x | x in items ensures SubstNode(x, t, c) == [x] {
      if t in Preorder(x) {
        ChildIdsInPreorder(items, x, t);
      }
      Untouched(x, t, c);
    }
    SubstAllSame(items, t, c);
  }

  lemma {:induction false} SegmentUp(chain: seq<Node>, child: Node, target: Node, c: Change,
                                     pre: seq<nat>, post: seq<nat>)
    returns (pre': seq<nat>, post': seq<nat>)
    requires IsChain(chain, child) && target.oid in Preorder(child)
    requires Distinct(RootOf(chain, child)) && Shared(RootOf(chain, child))
    requires Preorder(child) == pre + Preorder(target) + post
    requires PreorderAll(SubstNode(child, target.oid, c)) == pre + PreorderAll(Outcome(c, target)) + post
    ensures Preorder(RootOf(chain, child)) == pre' + Preorder(target) + post'
    ensures PreorderAll(SubstNode(RootOf(chain, child), target.oid, c))
         == pre' + PreorderAll(Outcome(c, target)) + post'
    decreases |chain|
  {
    pre', post' := pre, post;
    if chain != [] {
      var parent := chain[|chain| - 1];
      ChainWellFormed(chain, child);
      pre', post' := SegmentInParent(parent, child, target, c, pre, post);
      ChildIdsInPreorder(parent.children, child, target.oid);
      assert target.oid in Preorder(parent);
      pre', post' := SegmentUp(chain[..|chain| - 1], parent, target, c, pre', post');
    }
  }

  lemma SegmentFound(chain: seq<Node>, target: Node, c: Change) returns (pre: seq<nat>, post: seq<nat>)
    requires IsChain(chain, target)
    requires Distinct(RootOf(chain, target)) && Shared(RootOf(chain, target))
    ensures Preorder(RootOf(chain, target)) == pre + Preorder(target) + post
    ensures PreorderAll(SubstNode(RootOf(chain, target), target.oid, c))
         == pre + PreorderAll(Outcome(c, target)) + post
  {
    RootInPreorder(target);
    Surrounded(Preorder(target));
    Surrounded(PreorderAll(Outcome(c, target)));
    SingletonOutcome(target, c);
    pre, post := SegmentUp(chain, target, target, c, [], []);
  }

  /** The preorder of the edited tree is the old one with exactly the target's contiguous
      segment, the one that starts at the target's position `k`, replaced by the outcome. */
  lemma PreorderSegment(chain: seq<Node>, target: Node, c: Change) returns (k: nat)
    requires IsChain(chain, target)
    requires Distinct(RootOf(chain, target)) && Shared(RootOf(chain, target))
    ensures var ids, seg := Preorder(RootOf(chain, target)), Preorder(target);
            && k + |seg| <= |ids| && ids[k] == target.oid && ids[k..k + |seg|] == seg
            && PreorderAll(SubstNode(RootOf(chain, target), target.oid, c))
               == ids[..k] + PreorderAll(Outcome(c, target)) + ids[k + |seg|..]
  {
    var pre, post := SegmentFound(chain, target, c);
    k := |pre|;
    SegmentAt(pre, Preorder(target), post, PreorderAll(Outcome(c, target)));
  }

  lemma SingletonOutcome(target: Node, c: Change)
    ensures SubstNode(target, target.oid, c) == Outcome(c, target)
  {
  }

  lemma Surrounded<T>(s: seq<T>)
    ensures [] + s + [] == s
  {
  }

  lemma SegmentAt<T>(pre: seq<T>, seg: seq<T>, post: seq<T>, mid: seq<T>)
    requires seg != []
    ensures var s, k := pre + seg + post, |pre|;
            && k + |seg| <= |s| && s[k] == seg[0] && s[k..k + |seg|] == seg
            && pre + mid + post == s[..k] + mid + s[k + |seg|..]
  {
    var s, k := pre + seg + post, |pre|;
    assert s[..k] == pre && s[k + |seg|..] == post;
  }

  // ----- what the edit preserves -----------------------------------------------------------

  lemma {:induction false} SubstAllMembers(items: seq<Node>, x: Node, t: nat, c: Change)
    requires x in items
    ensures forall y <- SubstNode(x, t, c) :: y in SubstAll(items, t, c)
  {
    if items[0] != x {
      SubstAllMembers(items[1..], x, t, c);
    }
  }

  lemma {:induction false} SubstAllOrigin(items: seq<Node>, y: Node, t: nat, c: Change)
    returns (x: Node)
    requires y in SubstAll(items, t, c)
    ensures x in items && y in SubstNode(x, t, c)
  {
    if y in SubstNode(items[0], t, c) {
      x := items[0];
    } else {
      x := SubstAllOrigin(items[1..], y, t, c);
    }
  }

  /** Fields still mention direct children only, at every node of the edited tree. */
  lemma {:induction false} SharingKept(n: Node, t: nat, c: Change)
    requires Shared(n) && (c.Remove? || Shared(c.node))
    ensures forall r <- SubstNode(n, t, c) :: Shared(r)
    decreases n
  {
    if n.oid != t {
      var r := SubstNode(n, t, c)[0];
      forall y | y in r.children ensures Shared(y) {
        var x := SubstAllOrigin(n.children, y, t, c);
        SharingKept(x, t, c);
      }
      forall k | k in n.fields ensures FieldShared(SubstField(n.fields[k], t, c), r.children) {
        assert FieldShared(n.fields[k], n.children);
        match n.fields[k] {
          case Single(x) => SubstAllMembers(n.children, x, t, c);
          case Many(xs) =>
            forall y | y in SubstAll(xs, t, c) ensures y in r.children {
              var x := SubstAllOrigin(xs, y, t, c);
              SubstAllMembers(n.children, x, t, c);
            }
          case _ =>
        }
      }
    }
  }

  lemma NoRepeatsJoin<T>(a: seq<T>, b: seq<T>)
    requires NoRepeats(a) && NoRepeats(b) && forall x <- a :: x !in b
    ensures NoRepeats(a + b)
  {
    var s := a + b;
    forall i, j | 0 <= i < j < |s| ensures s[i] != s[j] {
      if i < |a| <= j {
        assert s[i] in a && s[j] == b[j - |a|];
      }
    }
  }

  /** Replacing a segment by new elements, or keeping it behind new ones, adds no repeats. */
  lemma NoRepeatsReplace<T>(pre: seq<T>, seg: seq<T>, post: seq<T>, mid: seq<T>)
    requires NoRepeats(pre + seg + post) && NoRepeats(mid)
    requires forall x <- mid :: x in seg || x !in pre + seg + post
    ensures NoRepeats(pre + mid + post)
  {
    NoRepeatsSplit(pre + seg, post);
    NoRepeatsSplit(pre, seg);
    assert forall x <- pre :: x in pre + seg + post && x !in seg by {
      assert forall x <- pre :: x in pre + seg;
    }
    assert forall x <- post :: x in pre + seg + post && x !in seg by {
      assert forall x <- seg :: x in pre + seg;
    }
    NoRepeatsJoin(pre, mid);
    assert forall x <- pre :: x in pre + seg;
    NoRepeatsJoin(pre + mid, post);
  }

  lemma SegmentReplaced<T>(ids: seq<T>, k: nat, seg: seq<T>, mid: seq<T>)
    requires k + |seg| <= |ids| && ids[k..k + |seg|] == seg
    requires NoRepeats(ids) && NoRepeats(mid)
    requires forall x <- mid :: x in seg || x !in ids
    ensures NoRepeats(ids[..k] + mid + ids[k + |seg|..])
  {
    assert ids == ids[..k] + seg + ids[k + |seg|..];
    NoRepeatsReplace(ids[..k], seg, ids[k + |seg|..], mid);
  }

  lemma PairPreorder(m: Node, x: Node)
    ensures PreorderAll([m, x]) == Preorder(m) + Preorder(x)
  {
    assert [m] + [x] == [m, x];
    PreorderConcat([m], [x]);
    SingletonPreorder(m);
    SingletonPreorder(x);
  }

  /** The outcome has no repeats, and each of its nodes is new or of the target's segment. */
  lemma OutcomeDistinct(ids: seq<nat>, target: Node, c: Change)
    requires Distinct(target) && forall id <- Preorder(target) :: id in ids
    requires !c.Remove? ==> Distinct(c.node) && forall id <- Preorder(c.node) :: id !in ids
    ensures var mid := PreorderAll(Outcome(c, target));
            NoRepeats(mid) && forall x <- mid :: x in Preorder(target) || x !in ids
  {
    match c {
      case Put(m) => SingletonPreorder(m);
      case Remove =>
      case Before(m) =>
        PairPreorder(m, target);
        NoRepeatsJoin(Preorder(m), Preorder(target));
    }
  }

  lemma SegmentDistinct(ids: seq<nat>, k: nat, target: Node, c: Change)
    requires NoRepeats(ids) && Distinct(target)
    requires k + |Preorder(target)| <= |ids| && ids[k..k + |Preorder(target)|] == Preorder(target)
    requires !c.Remove? ==> Distinct(c.node) && forall id <- Preorder(c.node) :: id !in ids
    ensures NoRepeats(ids[..k] + PreorderAll(Outcome(c, target)) + ids[k + |Preorder(target)|..])
  {
    OutcomeDistinct(ids, target, c);
    SegmentReplaced(ids, k, Preorder(target), PreorderAll(Outcome(c, target)));
  }

  /** With a fragment of new objects the edited tree again has distinct nodes, so edits can be
      made one after another. */
  lemma DistinctKept(chain: seq<Node>, target: Node, c: Change)
    requires IsChain(chain, target)
    requires Distinct(RootOf(chain, target)) && Shared(RootOf(chain, target))
    requires !c.Remove? ==> Distinct(c.node)
    requires !c.Remove? ==> forall id <- Preorder(c.node) :: id !in Preorder(RootOf(chain, target))
    ensures NoRepeats(PreorderAll(SubstNode(RootOf(chain, target), target.oid, c)))
  {
    var k := PreorderSegment(chain, target, c);
    ChainWellFormed(chain, target);
    SegmentDistinct(Preorder(RootOf(chain, target)), k, target, c);
  }
}

/** The benchmark's mutation plans: which chain is rebuilt, around which node, with what, and
    what that does to the document tree. */
module TreeEdits {
  import opened Wrappers
  import opened TreeRewrite

  /** The plan texts are ASCII, so UTF-8 gives one byte a character. */
  type Ascii = s: string | forall c <- s :: c < 128 as char

  /** The fragment that is put or inserted, the statement put in place of a body's last line, and
      the new name. All that follows holds for any texts. */
  datatype Texts = Texts(fragment: Ascii, statement: Ascii, name: Ascii)

  datatype Kind = Replace | Insert | Delete | Attribute | Body | Identifier

  datatype Mode = Fragment | Insertion | Drop | FieldText

  datatype Plan = Plan(chain: seq<Node>, was: Node, edit: Option<(nat, nat)>, text: Ascii,
                       mode: Mode, anchor: Node)

  /** What a kind of plan needs of its target: a range, and the field it edits through. */
  predicate Targeted(kind: Kind, node: Node) {
    node.range.Some? &&
    match kind
    case Body => "body" in node.fields && node.fields["body"].Single? && node.fields["body"].node.children != []
    case Attribute => HasName(node)
    case Identifier => HasName(node)
    case _ => true
  }

  predicate HasName(node: Node) {
    "name" in node.fields && node.fields["name"].Single?
  }

  function LastLine(node: Node): Node
    requires Targeted(Body, node)
  {
    var block := node.fields["body"].node;
    block.children[|block.children| - 1]
  }

  /** None where the original raises: for a target that lacks what the kind needs, and for an
      insertion without a parent to insert into. */
  function PlanFor(texts: Texts, kind: Kind, node: Node, ancestors: seq<Node>): Option<Plan> {
    if !Targeted(kind, node) || (kind.Insert? && ancestors == []) then None
    else Some(match kind
      case Replace => Plan(ancestors, node, node.range, texts.fragment, Fragment, node)
      case Insert =>
        var start := node.range.value.0;
        Plan(ancestors[..|ancestors| - 1], ancestors[|ancestors| - 1], Some((start, start)),
             texts.fragment, Insertion, node)
      case Delete => Plan(ancestors, node, node.range, "", Drop, node)
      case Body =>
        var line := LastLine(node);
        Plan(ancestors + [node, node.fields["body"].node], line, line.range, texts.statement, Fragment, node)
      case _ =>
        var name := node.fields["name"].node;
        Plan(ancestors + [node], name, if kind.Identifier? then name.range else None, texts.name, FieldText, node))
  }

  /** When a plan can be made: for a located target; for an insertion below a parent; for the body of one
      that has statements; and for the name of one that has a name. */
  lemma PlanMadeWhen(texts: Texts, kind: Kind, node: Node, ancestors: seq<Node>)
    ensures PlanFor(texts, kind, node, ancestors).Some? <==>
              && node.range.Some? && (kind == Insert ==> |ancestors| > 0)
              && (kind == Body ==> "body" in node.fields && node.fields["body"].Single?
                                   && |node.fields["body"].node.children| > 0)
              && (kind == Attribute || kind == Identifier ==> "name" in node.fields && node.fields["name"].Single?)
  {
  }

  /** The node put in place of `plan.was`; None drops it. */
  function Replacement(plan: Plan, fragment: Node): Option<Node> {
    match plan.mode
    case Fragment => Some(fragment)
    case Insertion => Some(RebuildParent(plan.was, plan.anchor, Before(fragment)))
    case Drop => None
    case FieldText => Some(plan.was.(fields := plan.was.fields["value" := Text(plan.text)]))
  }

  function Extra(plan: Plan, fragment: Node): nat {
    if plan.mode.Fragment? || plan.mode.Insertion? then |Preorder(fragment)| else 0
  }

  /** Rebuilds the chain from the innermost ancestor to the root, counting the nodes touched.
      On a chain of a well-formed tree the root is what the whole-tree substitution gives. */
  method RebuildPath(ancestors: seq<Node>, was: Node, made: Option<Node>)
    returns (root: Option<Node>, touched: nat)
    ensures touched == |ancestors| + 1
    ensures root == RebuildUp(ancestors, was, made)
    ensures IsChain(ancestors, was) && Distinct(RootOf(ancestors, was)) && Shared(RootOf(ancestors, was)) ==>
              SubstNode(RootOf(ancestors, was), was.oid, AsChange(made)) == if root.Some? then [root.value] else []
  {
    var currentOld, i := was, |ancestors|;
    root, touched := made, 1;
    assert ancestors[..i] == ancestors;
    while i > 0
      invariant 0 <= i <= |ancestors|
      invariant touched == |ancestors| - i + 1
      invariant RebuildUp(ancestors, was, made) == RebuildUp(ancestors[..i], currentOld, root)
    {
      i := i - 1;
      var parent := ancestors[i];
      assert ancestors[..i + 1][..i] == ancestors[..i];
      root := Some(RebuildParent(parent, currentOld, AsChange(root)));
      currentOld, touched := parent, touched + 1;
    }
    if IsChain(ancestors, was) && Distinct(RootOf(ancestors, was)) && Shared(RootOf(ancestors, was)) {
      PathRebuildIsSubst(ancestors, was, made);
    }
  }

  /** The tree half of applying a plan: the new root and the nodes it reports as affected. */
  method ApplyToTree(plan: Plan, fragment: Node) returns (root: Option<Node>, affected: nat)
    ensures root == RebuildUp(plan.chain, plan.was, Replacement(plan, fragment))
    ensures affected == |plan.chain| + 1 + Extra(plan, fragment)
  {
    var touched;
    root, touched := RebuildPath(plan.chain, plan.was, Replacement(plan, fragment));
    affected := touched + Extra(plan, fragment);
  }

  // ----- what each kind of plan is for -----------------------------------------------------

  /** The node a plan edits and what is to become of it, stated without chains. */
  function Target(kind: Kind, node: Node): Node
    requires Targeted(kind, node)
  {
    match kind
    case Body => LastLine(node)
    case Attribute => node.fields["name"].node
    case Identifier => node.fields["name"].node
    case _ => node
  }

  function Intended(texts: Texts, kind: Kind, node: Node, fragment: Node): Change
    requires Targeted(kind, node)
  {
    match kind
    case Replace => Put(fragment)
    case Insert => Before(fragment)
    case Delete => Remove
    case Body => Put(fragment)
    case _ =>
      var name := Target(kind, node);
      Put(name.(fields := name.fields["value" := Text(texts.name)]))
  }

  /** A chain can be continued through the node it leads to. */
  lemma ChainStep(chain: seq<Node>, was: Node, next: Node)
    requires IsChain(chain, was) && next in was.children
    ensures IsChain(chain + [was], next) && RootOf(chain + [was], next) == RootOf(chain, was)
  {
    var c := chain + [was];
    forall i | 0 <= i < |c| - 1 ensures c[i + 1] in c[i].children {
      if i == |chain| - 1 {
        assert c[i] == chain[|chain| - 1] && c[i + 1] == was;
      }
    }
  }

  lemma PlanChain(texts: Texts, kind: Kind, node: Node, ancestors: seq<Node>)
    requires IsChain(ancestors, node) && Shared(node)
    requires PlanFor(texts, kind, node, ancestors).Some?
    ensures var plan := PlanFor(texts, kind, node, ancestors).value;
            IsChain(plan.chain, plan.was) && RootOf(plan.chain, plan.was) == RootOf(ancestors, node)
  {
    match kind {
      case Body =>
        assert FieldShared(node.fields["body"], node.children);
        var block := node.fields["body"].node;
        ChainStep(ancestors, node, block);
        ChainStep(ancestors + [node], block, block.children[|block.children| - 1]);
        assert ancestors + [node] + [block] == ancestors + [node, block];
      case Attribute =>
        assert FieldShared(node.fields["name"], node.children);
        ChainStep(ancestors, node, node.fields["name"].node);
      case Identifier =>
        assert FieldShared(node.fields["name"], node.children);
        ChainStep(ancestors, node, node.fields["name"].node);
      case _ =>
    }
  }

  /** Only dropping the root itself leaves no tree. */
  lemma PlanRoot(texts: Texts, kind: Kind, node: Node, ancestors: seq<Node>, fragment: Node)
    requires PlanFor(texts, kind, node, ancestors).Some?
    ensures var plan := PlanFor(texts, kind, node, ancestors).value;
            RebuildUp(plan.chain, plan.was, Replacement(plan, fragment)).None? <==> kind.Delete? && ancestors == []
  {
    var plan := PlanFor(texts, kind, node, ancestors).value;
    var made := Replacement(plan, fragment);
    if made.Some? {
      RebuildUpSome(plan.chain, plan.was, made.value);
    } else if ancestors != [] {
      var parent := ancestors[|ancestors| - 1];
      RebuildUpSome(ancestors[..|ancestors| - 1], parent, RebuildParent(parent, node, Remove));
    }
  }

  /** Where a plan aims: at its target, or for an insertion at the parent around it. */
  lemma PlanAims(texts: Texts, kind: Kind, node: Node, ancestors: seq<Node>, fragment: Node)
    requires PlanFor(texts, kind, node, ancestors).Some?
    ensures var plan := PlanFor(texts, kind, node, ancestors).value;
            if kind.Insert? then
              && ancestors != [] && plan.chain == ancestors[..|ancestors| - 1]
              && plan.was == ancestors[|ancestors| - 1]
              && Replacement(plan, fragment) == Some(RebuildParent(plan.was, node, Before(fragment)))
            else
              && plan.was == Target(kind, node)
              && AsChange(Replacement(plan, fragment)) == Intended(texts, kind, node, fragment)
  {
  }

  /** Applying any plan to a target of a well-formed tree makes exactly the intended change of
      the whole tree, and only dropping the root leaves none. */
  lemma PlanMeaning(texts: Texts, kind: Kind, node: Node, ancestors: seq<Node>, fragment: Node)
    requires IsChain(ancestors, node)
    requires Distinct(RootOf(ancestors, node)) && Shared(RootOf(ancestors, node))
    requires PlanFor(texts, kind, node, ancestors).Some?
    ensures var plan := PlanFor(texts, kind, node, ancestors).value;
            var root := RebuildUp(plan.chain, plan.was, Replacement(plan, fragment));
            && SubstNode(RootOf(ancestors, node), Target(kind, node).oid, Intended(texts, kind, node, fragment))
               == (if root.Some? then [root.value] else [])
            && (root.None? <==> kind.Delete? && ancestors == [])
  {
    ChainWellFormed(ancestors, node);
    PlanChain(texts, kind, node, ancestors);
    PlanAims(texts, kind, node, ancestors, fragment);
    PlanRoot(texts, kind, node, ancestors, fragment);
    var plan := PlanFor(texts, kind, node, ancestors).value;
    if kind.Insert? {
      InsertRebuildIsSubst(plan.chain, plan.was, node, fragment);
    } else {
      PathRebuildIsSubst(plan.chain, plan.was, Replacement(plan, fragment));
    }
  }
}

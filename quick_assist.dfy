/**
 * The quick-assist processor (ca.jacob.quickassist.QuickAssistProcessor): when the
 * "create implementing class" assist applies, the gate on hard errors, and the
 * search for the outermost syntax nodes that lie fully inside the selection.
 */
module QuickAssist {
  import opened JavaModel

  /** The type kind handed to the proposal: CreateTypeUsingWizardProposal.K_CLASS.
      That class is not part of this model, so its value is left open. */
  const K_CLASS: int

  /** The relevance the proposal is created with. */
  const PROPOSAL_RELEVANCE: int := 6

  // ---------------------------------------------------------------------------
  // Invocation context, syntax tree, problem locations, proposals
  // ---------------------------------------------------------------------------

  datatype EditorKind = JavaEditor | OtherEditor

  /** The dynamic type of the invocation context: an AssistContext (which knows
      its editor) or some other context. */
  datatype ContextKind = AssistContext(editor: EditorKind) | OtherContext

  datatype NodeKind = SimpleName | QualifiedName | TypeDeclaration | OtherNode

  /** A syntax node: kind, source span and children in visiting order. */
  datatype AstNode = AstNode(kind: NodeKind, start: int, length: nat, children: seq<AstNode>)

  /** The node covering the selection, with its parent (None for the root). */
  datatype CoveringNode = CoveringNode(node: AstNode, parent: Option<AstNode>)

  datatype InvocationContext = InvocationContext(
    kind: ContextKind,
    compilationUnit: JavaElement,
    coveringNode: Option<CoveringNode>,
    selectionOffset: int,
    selectionLength: int)

  /** The type of a problem's marker: the Java model problem marker, or any other
      marker type (a different string from that marker's id). */
  datatype MarkerType = JavaModelProblemMarker | OtherMarker

  /** A problem reported in the compilation unit. */
  datatype ProblemLocation = ProblemLocation(isError: bool, markerType: MarkerType, problemId: int)

  /** The proposal record added to the assist list. */
  datatype Proposal = CreateTypeUsingWizard(
    compilationUnit: JavaElement,
    name: AstNode,
    typeKind: int,
    typeContainer: Option<JavaElement>,
    relevance: int)

  /** The list of proposals getAssists collects. */
  class ProposalList {
    var items: seq<Proposal>

    constructor ()
      ensures items == []
    {
      items := [];
    }

    method Add(p: Proposal)
      modifies this
      ensures items == old(items) + [p]
    {
      items := items + [p];
    }
  }

  // ---------------------------------------------------------------------------
  // Eligibility
  // ---------------------------------------------------------------------------

  /** The first shape check that fails, or Eligible when all four hold. */
  datatype Eligibility =
    | NotAssistContext
    | NotJavaEditor
    | NotSimpleName
    | ParentNotTypeDeclaration
    | Eligible

  /** The short-circuit chain of getCreateInterfaceProposal: an assist context,
      in a Java editor, on a simple name, whose parent is a type declaration. */
  function CheckEligibility(context: InvocationContext, covering: CoveringNode): (e: Eligibility)
    ensures e == Eligible <==>
              && context.kind == AssistContext(JavaEditor)
              && covering.node.kind == SimpleName
              && covering.parent.Some? && covering.parent.value.kind == TypeDeclaration
    ensures e == NotAssistContext <==> !context.kind.AssistContext?
    ensures e == NotJavaEditor <==> context.kind.AssistContext? && context.kind.editor != JavaEditor
    ensures e == NotSimpleName <==> context.kind == AssistContext(JavaEditor) && covering.node.kind != SimpleName
    ensures e == ParentNotTypeDeclaration <==>
              && context.kind == AssistContext(JavaEditor) && covering.node.kind == SimpleName
              && !(covering.parent.Some? && covering.parent.value.kind == TypeDeclaration)
  {
    if !context.kind.AssistContext? then NotAssistContext
    else if context.kind.editor != JavaEditor then NotJavaEditor
    else if covering.node.kind != SimpleName then NotSimpleName
    else if !(covering.parent.Some? && covering.parent.value.kind == TypeDeclaration) then ParentNotTypeDeclaration
    else Eligible
  }

  /** getCreateInterfaceProposal: when eligible, appends one proposal (class
      kind, relevance 6, no container) and answers true; otherwise leaves the
      list alone and answers false. */
  method GetCreateInterfaceProposal(context: InvocationContext, covering: CoveringNode,
                                    locations: Option<seq<ProblemLocation>>, results: ProposalList)
    returns (added: bool)
    modifies results
    ensures added <==> CheckEligibility(context, covering) == Eligible
    ensures results.items ==
              if added
              then old(results.items) +
                   [CreateTypeUsingWizard(context.compilationUnit, covering.node, K_CLASS, None, PROPOSAL_RELEVANCE)]
              else old(results.items)
  {
    if !context.kind.AssistContext? {
      return false;
    }
    var editor := context.kind.editor;
    if editor != JavaEditor {
      return false;
    }
    if covering.node.kind != SimpleName {
      return false;
    }
    if !(covering.parent.Some? && covering.parent.value.kind == TypeDeclaration) {
      return false;
    }
    var cu := context.compilationUnit;
    var proposal := CreateTypeUsingWizard(cu, covering.node, K_CLASS, None, PROPOSAL_RELEVANCE);
    results.Add(proposal);
    return true;
  }

  /** hasAssists: whether the assist applies at the covering node. */
  method HasAssists(context: InvocationContext) returns (b: bool)
    ensures b <==> context.coveringNode.Some? && CheckEligibility(context, context.coveringNode.value) == Eligible
  {
    if context.coveringNode.Some? {
      return CheckEligibility(context, context.coveringNode.value) == Eligible;
    }
    return false;
  }

  /** What hasAssists does as written: it hands getCreateInterfaceProposal no
      list, and that method appends to the list once the node is eligible. */
  datatype HasAssistsOutcome = Answer(hasAssists: bool) | NullPointerException

  function HasAssistsAsWritten(context: InvocationContext): (o: HasAssistsOutcome)
    ensures o.NullPointerException? <==>
              context.coveringNode.Some? && CheckEligibility(context, context.coveringNode.value) == Eligible
    ensures o.Answer? ==> !o.hasAssists
  {
    if context.coveringNode.None? then Answer(false)
    else if CheckEligibility(context, context.coveringNode.value) != Eligible then Answer(false)
    else NullPointerException
  }

  /** The smallest input on which the as-written hasAssists fails: a simple name
      heading a type declaration in a Java editor's assist context. */
  lemma HasAssistsAsWrittenFailsWhenEligible()
    ensures var name := AstNode(SimpleName, 0, 3, []);
            var declaration := AstNode(TypeDeclaration, 0, 10, [name]);
            var context := InvocationContext(AssistContext(JavaEditor), CompilationUnit("A.java", PackageFragment("p")),
                                             Some(CoveringNode(name, Some(declaration))), 1, 0);
            HasAssistsAsWritten(context) == NullPointerException
  {
  }

  // ---------------------------------------------------------------------------
  // Problem gate
  // ---------------------------------------------------------------------------

  /** An error blocks the assist unless it is a Java model problem whose
      problem id has a configurable severity. */
  predicate IsBlocking(location: ProblemLocation, configurable: set<int>)
  {
    location.isError && !(location.markerType == JavaModelProblemMarker && location.problemId in configurable)
  }

  predicate NoBlockingError(locations: Option<seq<ProblemLocation>>, configurable: set<int>)
  {
    locations.None? ||
    forall i :: 0 <= i < |locations.value| ==> !IsBlocking(locations.value[i], configurable)
  }

  /** noErrorsAtLocation: scans the locations and stops at the first blocking
      error. `configurable` holds the problem ids whose severity is configurable. */
  method NoErrorsAtLocation(locations: Option<seq<ProblemLocation>>, configurable: set<int>) returns (ok: bool)
    ensures ok == NoBlockingError(locations, configurable)
    ensures !ok <==> locations.Some? &&
                     exists i :: 0 <= i < |locations.value| && IsBlocking(locations.value[i], configurable)
  {
    if locations.Some? {
      var locs := locations.value;
      for i := 0 to |locs|
        invariant forall j :: 0 <= j < i ==> !IsBlocking(locs[j], configurable)
      {
        var location := locs[i];
        if location.isError {
          if location.markerType == JavaModelProblemMarker && location.problemId in configurable {
            // a tolerated (optional) error
          } else {
            return false;
          }
        }
      }
    }
    return true;
  }

  /** The error locations, in order. */
  function Errors(locations: seq<ProblemLocation>): seq<ProblemLocation>
    decreases |locations|
  {
    if locations == [] then []
    else (if locations[0].isError then [locations[0]] else []) + Errors(locations[1..])
  }

  lemma NoBlockingErrorConcat(a: seq<ProblemLocation>, b: seq<ProblemLocation>, configurable: set<int>)
    ensures NoBlockingError(Some(a + b), configurable) ==
            (NoBlockingError(Some(a), configurable) && NoBlockingError(Some(b), configurable))
  {
    var ab := a + b;
    assert forall i :: 0 <= i < |a| ==> ab[i] == a[i];
    assert forall i :: 0 <= i < |b| ==> b[i] == ab[|a| + i];
  }

  /** Locations that are not errors never change the verdict. */
  lemma {:induction false} NonErrorsIrrelevant(locations: seq<ProblemLocation>, configurable: set<int>)
    ensures NoBlockingError(Some(locations), configurable) == NoBlockingError(Some(Errors(locations)), configurable)
    decreases |locations|
  {
    if locations != [] {
      var rest := locations[1..];
      NonErrorsIrrelevant(rest, configurable);
      var head := if locations[0].isError then [locations[0]] else [];
      assert locations == [locations[0]] + rest;
      NoBlockingErrorConcat([locations[0]], rest, configurable);
      NoBlockingErrorConcat(head, Errors(rest), configurable);
    }
  }

  lemma BlockingWitness(a: seq<ProblemLocation>, b: seq<ProblemLocation>, configurable: set<int>)
    requires multiset(a) == multiset(b)
    requires !NoBlockingError(Some(a), configurable)
    ensures !NoBlockingError(Some(b), configurable)
  {
    var i :| 0 <= i < |a| && IsBlocking(a[i], configurable);
    assert a[i] in multiset(a);
    assert a[i] in multiset(b);
    var j :| 0 <= j < |b| && b[j] == a[i];
  }

  /** The order of the locations never changes the verdict. */
  lemma OrderIrrelevant(a: seq<ProblemLocation>, b: seq<ProblemLocation>, configurable: set<int>)
    requires multiset(a) == multiset(b)
    ensures NoBlockingError(Some(a), configurable) == NoBlockingError(Some(b), configurable)
  {
    if !NoBlockingError(Some(a), configurable) {
      BlockingWitness(a, b, configurable);
    }
    if !NoBlockingError(Some(b), configurable) {
      BlockingWitness(b, a, configurable);
    }
  }

  // ---------------------------------------------------------------------------
  // Fully covered nodes
  // ---------------------------------------------------------------------------

  predicate IsCovered(n: AstNode, begin: int, end: int)
  {
    n.start >= begin && n.start + n.length <= end
  }

  predicate IsDisjoint(n: AstNode, begin: int, end: int)
  {
    n.start + n.length < begin || end < n.start
  }

  predicate ParentCovered(parent: Option<AstNode>, begin: int, end: int)
  {
    parent.Some? && IsCovered(parent.value, begin, end)
  }

  /** What the visitor collects from a subtree, in visiting order: nothing from
      a subtree disjoint from the selection; the node itself when it is covered
      and its parent is not; otherwise whatever its children yield. */
  function FullyCovered(n: AstNode, parent: Option<AstNode>, begin: int, end: int): seq<AstNode>
    decreases n, 1, 0
  {
    if IsDisjoint(n, begin, end) then []
    else if IsCovered(n, begin, end) && !ParentCovered(parent, begin, end) then [n]
    else FullyCoveredChildren(n, 0, begin, end)
  }

  function FullyCoveredChildren(n: AstNode, i: nat, begin: int, end: int): seq<AstNode>
    requires i <= |n.children|
    decreases n, 0, |n.children| - i
  {
    if i == |n.children| then []
    else FullyCovered(n.children[i], Some(n), begin, end) + FullyCoveredChildren(n, i + 1, begin, end)
  }

  /** The anonymous GenericVisitor of getFullyCoveredNodes: the selection bounds
      it captured and the list it appends to. */
  class CoveredNodesVisitor {
    const selectionBegin: int
    const selectionEnd: int
    var coveredNodes: seq<AstNode>

    constructor (selectionBegin: int, selectionEnd: int)
      ensures this.selectionBegin == selectionBegin && this.selectionEnd == selectionEnd
      ensures coveredNodes == []
    {
      this.selectionBegin := selectionBegin;
      this.selectionEnd := selectionEnd;
      coveredNodes := [];
    }

    /** visitNode: prunes a node disjoint from the selection, records a covered
        node whose parent is not covered, and otherwise asks for the children. */
    method VisitNode(node: AstNode, parent: Option<AstNode>) returns (visitChildren: bool)
      modifies this`coveredNodes
      ensures var recorded := !IsDisjoint(node, selectionBegin, selectionEnd) &&
                              IsCovered(node, selectionBegin, selectionEnd) &&
                              !ParentCovered(parent, selectionBegin, selectionEnd);
              coveredNodes == old(coveredNodes) + (if recorded then [node] else []) &&
              (visitChildren <==> !IsDisjoint(node, selectionBegin, selectionEnd) && !recorded)
    {
      var nodeStart := node.start;
      var nodeEnd := nodeStart + node.length;
      if nodeEnd < selectionBegin || selectionEnd < nodeStart {
        return false;
      }
      if IsCovered(node, selectionBegin, selectionEnd) {
        if parent.None? || !IsCovered(parent.value, selectionBegin, selectionEnd) {
          coveredNodes := coveredNodes + [node];
          return false;
        }
      }
      return true;
    }

    /** The pre-order traversal that ASTNode.accept drives the visitor through. */
    method Accept(node: AstNode, parent: Option<AstNode>)
      modifies this`coveredNodes
      ensures coveredNodes == old(coveredNodes) + FullyCovered(node, parent, selectionBegin, selectionEnd)
      decreases node
    {
      var visitChildren := VisitNode(node, parent);
      if visitChildren {
        for i := 0 to |node.children|
          invariant coveredNodes + FullyCoveredChildren(node, i, selectionBegin, selectionEnd) ==
                    old(coveredNodes) + FullyCoveredChildren(node, 0, selectionBegin, selectionEnd)
        {
          Accept(node.children[i], Some(node));
        }
      }
    }
  }

  /** getFullyCoveredNodes: the outermost nodes under the covering node that lie
      inside [offset, offset + length]. */
  method GetFullyCoveredNodes(context: InvocationContext, covering: CoveringNode) returns (nodes: seq<AstNode>)
    ensures nodes == FullyCovered(covering.node, covering.parent, context.selectionOffset,
                                  context.selectionOffset + context.selectionLength)
  {
    var selectionBegin := context.selectionOffset;
    var selectionEnd := selectionBegin + context.selectionLength;
    var visitor := new CoveredNodesVisitor(selectionBegin, selectionEnd);
    visitor.Accept(covering.node, covering.parent);
    nodes := visitor.coveredNodes;
  }

  // ---------------------------------------------------------------------------
  // Where the collected nodes sit in the tree
  // ---------------------------------------------------------------------------

  /** A path of child indices from a node down to one of its descendants. */
  type Path = seq<nat>

  ghost predicate ValidPath(n: AstNode, p: Path)
    decreases |p|
  {
    p == [] || (p[0] < |n.children| && ValidPath(n.children[p[0]], p[1..]))
  }

  ghost function At(n: AstNode, p: Path): AstNode
    requires ValidPath(n, p)
    decreases |p|
  {
    if p == [] then n else At(n.children[p[0]], p[1..])
  }

  ghost predicate IsPrefix(p: Path, q: Path)
  {
    |p| <= |q| && q[..|p|] == p
  }

  /** p comes strictly before q in pre-order and neither lies under the other. */
  ghost predicate Precedes(p: Path, q: Path)
    decreases |p|
  {
    |p| > 0 && |q| > 0 && (p[0] < q[0] || (p[0] == q[0] && Precedes(p[1..], q[1..])))
  }

  ghost predicate InPreOrder(ps: seq<Path>)
  {
    forall k, l :: 0 <= k < l < |ps| ==> Precedes(ps[k], ps[l])
  }

  /** The path to a collected node: the node is covered, its parent is not, and
      no node on the way down (the node included) is disjoint from the selection. */
  ghost predicate Outermost(n: AstNode, parent: Option<AstNode>, begin: int, end: int, p: Path)
  {
    && ValidPath(n, p)
    && IsCovered(At(n, p), begin, end)
    && (if p == [] then !ParentCovered(parent, begin, end)
        else ValidPath(n, p[..|p| - 1]) && !IsCovered(At(n, p[..|p| - 1]), begin, end))
    && forall j :: 0 <= j <= |p| ==> ValidPath(n, p[..j]) && !IsDisjoint(At(n, p[..j]), begin, end)
  }

  ghost function Prefixed(k: nat, ps: seq<Path>): seq<Path>
  {
    seq(|ps|, j requires 0 <= j < |ps| => [k] + ps[j])
  }

  /** The paths of the nodes FullyCovered collects, in the same order. */
  ghost function CoveredPaths(n: AstNode, parent: Option<AstNode>, begin: int, end: int): seq<Path>
    decreases n, 1, 0
  {
    if IsDisjoint(n, begin, end) then []
    else if IsCovered(n, begin, end) && !ParentCovered(parent, begin, end) then [[]]
    else CoveredPathsChildren(n, 0, begin, end)
  }

  ghost function CoveredPathsChildren(n: AstNode, i: nat, begin: int, end: int): seq<Path>
    requires i <= |n.children|
    decreases n, 0, |n.children| - i
  {
    if i == |n.children| then []
    else Prefixed(i, CoveredPaths(n.children[i], Some(n), begin, end)) + CoveredPathsChildren(n, i + 1, begin, end)
  }

  lemma {:induction false} CoveredPathsLocate(n: AstNode, parent: Option<AstNode>, begin: int, end: int)
    ensures var nodes := FullyCovered(n, parent, begin, end);
            var paths := CoveredPaths(n, parent, begin, end);
            |paths| == |nodes| &&
            forall k :: 0 <= k < |paths| ==> ValidPath(n, paths[k]) && At(n, paths[k]) == nodes[k]
    decreases n, 1, 0
  {
    if !IsDisjoint(n, begin, end) && !(IsCovered(n, begin, end) && !ParentCovered(parent, begin, end)) {
      CoveredPathsChildrenLocate(n, 0, begin, end);
    }
  }

  lemma {:induction false} CoveredPathsChildrenLocate(n: AstNode, i: nat, begin: int, end: int)
    requires i <= |n.children|
    ensures var nodes := FullyCoveredChildren(n, i, begin, end);
            var paths := CoveredPathsChildren(n, i, begin, end);
            |paths| == |nodes| &&
            forall k :: 0 <= k < |paths| ==> ValidPath(n, paths[k]) && At(n, paths[k]) == nodes[k]
    decreases n, 0, |n.children| - i
  {
    if i < |n.children| {
      var child := n.children[i];
      CoveredPathsLocate(child, Some(n), begin, end);
      CoveredPathsChildrenLocate(n, i + 1, begin, end);
      var nodes := FullyCoveredChildren(n, i, begin, end);
      var paths := CoveredPathsChildren(n, i, begin, end);
      var childNodes := FullyCovered(child, Some(n), begin, end);
      var childPaths := CoveredPaths(child, Some(n), begin, end);
      var restNodes := FullyCoveredChildren(n, i + 1, begin, end);
      var restPaths := CoveredPathsChildren(n, i + 1, begin, end);
      assert nodes == childNodes + restNodes;
      assert paths == Prefixed(i, childPaths) + restPaths;
      forall k | 0 <= k < |paths|
        ensures ValidPath(n, paths[k]) && At(n, paths[k]) == nodes[k]
      {
        if k < |childPaths| {
          var p := paths[k];
          assert p == [i] + childPaths[k];
          assert p[0] == i && p[1..] == childPaths[k];
        } else {
          assert paths[k] == restPaths[k - |childPaths|];
          assert nodes[k] == restNodes[k - |childPaths|];
        }
      }
    }
  }

  /** One step down: a path that is outermost below a child of n, where n itself
      meets the selection, is outermost below n. */
  lemma OutermostLift(n: AstNode, parent: Option<AstNode>, k: nat, q: Path, begin: int, end: int)
    requires k < |n.children| && !IsDisjoint(n, begin, end)
    requires Outermost(n.children[k], Some(n), begin, end, q)
    ensures Outermost(n, parent, begin, end, [k] + q)
  {
    var child := n.children[k];
    var p := [k] + q;
    assert p[0] == k && p[1..] == q;
    forall j | 0 <= j <= |p|
      ensures ValidPath(n, p[..j]) && !IsDisjoint(At(n, p[..j]), begin, end)
    {
      if j == 0 {
        assert p[..j] == [];
      } else {
        var pj := p[..j];
        assert pj[0] == k && pj[1..] == q[..j - 1];
        assert ValidPath(child, q[..j - 1]);
      }
    }
    var up := p[..|p| - 1];
    if q == [] {
      assert up == [];
    } else {
      assert up[0] == k && up[1..] == q[..|q| - 1];
    }
  }

  lemma {:induction false} CoveredPathsOutermost(n: AstNode, parent: Option<AstNode>, begin: int, end: int)
    ensures forall p :: p in CoveredPaths(n, parent, begin, end) ==> Outermost(n, parent, begin, end, p)
    decreases n, 1, 0
  {
    if !IsDisjoint(n, begin, end) {
      if IsCovered(n, begin, end) && !ParentCovered(parent, begin, end) {
        assert CoveredPaths(n, parent, begin, end) == [[]];
        var empty: Path := [];
        assert empty[..0] == empty;
      } else {
        CoveredPathsChildrenOutermost(n, parent, 0, begin, end);
      }
    }
  }

  lemma {:induction false} CoveredPathsChildrenOutermost(n: AstNode, parent: Option<AstNode>, i: nat, begin: int, end: int)
    requires i <= |n.children| && !IsDisjoint(n, begin, end)
    ensures forall p :: p in CoveredPathsChildren(n, i, begin, end) ==> Outermost(n, parent, begin, end, p)
    decreases n, 0, |n.children| - i
  {
    if i < |n.children| {
      var child := n.children[i];
      var childPaths := CoveredPaths(child, Some(n), begin, end);
      CoveredPathsOutermost(child, Some(n), begin, end);
      CoveredPathsChildrenOutermost(n, parent, i + 1, begin, end);
      forall p | p in Prefixed(i, childPaths)
        ensures Outermost(n, parent, begin, end, p)
      {
        var k :| 0 <= k < |childPaths| && p == [i] + childPaths[k];
        OutermostLift(n, parent, i, childPaths[k], begin, end);
      }
    }
  }

  lemma PrecedesUnderSameChild(k: nat, ps: seq<Path>)
    requires InPreOrder(ps)
    ensures InPreOrder(Prefixed(k, ps))
  {
    var qs := Prefixed(k, ps);
    forall a, b | 0 <= a < b < |qs|
      ensures Precedes(qs[a], qs[b])
    {
      assert qs[a][1..] == ps[a] && qs[b][1..] == ps[b];
    }
  }

  lemma {:induction false} CoveredPathsOrdered(n: AstNode, parent: Option<AstNode>, begin: int, end: int)
    ensures InPreOrder(CoveredPaths(n, parent, begin, end))
    decreases n, 1, 0
  {
    if !IsDisjoint(n, begin, end) && !(IsCovered(n, begin, end) && !ParentCovered(parent, begin, end)) {
      CoveredPathsChildrenOrdered(n, 0, begin, end);
    }
  }

  lemma {:induction false} CoveredPathsChildrenOrdered(n: AstNode, i: nat, begin: int, end: int)
    requires i <= |n.children|
    ensures InPreOrder(CoveredPathsChildren(n, i, begin, end))
    ensures forall p :: p in CoveredPathsChildren(n, i, begin, end) ==> |p| > 0 && i <= p[0]
    decreases n, 0, |n.children| - i
  {
    if i < |n.children| {
      var childPaths := CoveredPaths(n.children[i], Some(n), begin, end);
      var first := Prefixed(i, childPaths);
      var rest := CoveredPathsChildren(n, i + 1, begin, end);
      CoveredPathsOrdered(n.children[i], Some(n), begin, end);
      PrecedesUnderSameChild(i, childPaths);
      CoveredPathsChildrenOrdered(n, i + 1, begin, end);
      var all := first + rest;
      assert all == CoveredPathsChildren(n, i, begin, end);
      forall a, b | 0 <= a < b < |all|
        ensures Precedes(all[a], all[b])
      {
        if b < |first| {
        } else if a >= |first| {
          assert all[a] == rest[a - |first|] && all[b] == rest[b - |first|];
        } else {
          assert all[a] == first[a] && all[a][0] == i;
          assert all[b] == rest[b - |first|] && all[b] in rest;
        }
      }
      forall p | p in all
        ensures |p| > 0 && i <= p[0]
      {
        if p in first {
          var k :| 0 <= k < |first| && first[k] == p;
          assert p == [i] + childPaths[k];
        }
      }
    }
  }

  lemma PrefixTail(p: Path, q: Path)
    requires |p| > 0 && |q| > 0 && p[0] == q[0]
    ensures IsPrefix(p, q) <==> IsPrefix(p[1..], q[1..])
  {
    if |p| <= |q| {
      assert q[1..][..|p| - 1] == q[..|p|][1..];
      assert q[..|p|] == [q[0]] + q[..|p|][1..];
      assert p == [p[0]] + p[1..];
    }
  }

  /** Two paths in pre-order: neither is a prefix of the other. */
  lemma {:induction false} PrecedesNotPrefix(p: Path, q: Path)
    requires Precedes(p, q)
    ensures !IsPrefix(p, q) && !IsPrefix(q, p)
    decreases |p|
  {
    if p[0] == q[0] {
      PrecedesNotPrefix(p[1..], q[1..]);
      PrefixTail(p, q);
      PrefixTail(q, p);
    }
  }

  /** Everything getFullyCoveredNodes returns, located in the tree under the
      covering node: each node is covered, its parent is not, nothing on its way
      down is disjoint from the selection, no returned node lies under another,
      and the nodes come in pre-order. */
  lemma FullyCoveredNodesAreOutermost(n: AstNode, parent: Option<AstNode>, begin: int, end: int)
    ensures var nodes := FullyCovered(n, parent, begin, end);
            var paths := CoveredPaths(n, parent, begin, end);
            && |paths| == |nodes|
            && (forall k :: 0 <= k < |paths| ==>
                  ValidPath(n, paths[k]) && At(n, paths[k]) == nodes[k] && Outermost(n, parent, begin, end, paths[k]))
            && (forall k, l :: 0 <= k < |paths| && 0 <= l < |paths| && k != l ==> !IsPrefix(paths[k], paths[l]))
            && InPreOrder(paths)
  {
    var paths := CoveredPaths(n, parent, begin, end);
    CoveredPathsLocate(n, parent, begin, end);
    CoveredPathsOutermost(n, parent, begin, end);
    CoveredPathsOrdered(n, parent, begin, end);
    forall k, l | 0 <= k < |paths| && 0 <= l < |paths| && k != l
      ensures !IsPrefix(paths[k], paths[l])
    {
      if k < l {
        PrecedesNotPrefix(paths[k], paths[l]);
      } else {
        PrecedesNotPrefix(paths[l], paths[k]);
      }
    }
  }

  /** Span containment: c lies inside n. */
  ghost predicate Within(c: AstNode, n: AstNode)
  {
    n.start <= c.start && c.start + c.length <= n.start + n.length
  }

  /** The nesting the parser guarantees: every child's span lies inside its
      parent's span, all the way down. */
  ghost predicate WellNested(n: AstNode)
    decreases n
  {
    forall i :: 0 <= i < |n.children| ==> Within(n.children[i], n) && WellNested(n.children[i])
  }

  /** In a well-nested tree every descendant lies inside its ancestor. */
  lemma {:induction false} DescendantWithin(n: AstNode, p: Path)
    requires WellNested(n) && ValidPath(n, p)
    ensures Within(At(n, p), n) && WellNested(At(n, p))
    decreases |p|
  {
    if p != [] {
      DescendantWithin(n.children[p[0]], p[1..]);
    }
  }

  lemma {:induction false} PrefixedInChildren(n: AstNode, i: nat, k: nat, q: Path, begin: int, end: int)
    requires i <= k < |n.children|
    requires q in CoveredPaths(n.children[k], Some(n), begin, end)
    ensures [k] + q in CoveredPathsChildren(n, i, begin, end)
    decreases k - i
  {
    if i == k {
      var ps := CoveredPaths(n.children[k], Some(n), begin, end);
      var j :| 0 <= j < |ps| && ps[j] == q;
      assert Prefixed(k, ps)[j] == [k] + q;
    } else {
      PrefixedInChildren(n, i + 1, k, q, begin, end);
    }
  }

  /** Completeness in a well-nested tree: a covered node whose parent is not
      covered (or, at the top, whose given parent is not) is collected. */
  lemma {:induction false} OutermostCollected(n: AstNode, parent: Option<AstNode>, begin: int, end: int, p: Path)
    requires WellNested(n) && ValidPath(n, p) && IsCovered(At(n, p), begin, end)
    requires if p == [] then !ParentCovered(parent, begin, end)
             else ValidPath(n, p[..|p| - 1]) && !IsCovered(At(n, p[..|p| - 1]), begin, end)
    ensures p in CoveredPaths(n, parent, begin, end)
    decreases |p|
  {
    DescendantWithin(n, p);
    if p != [] {
      var up := p[..|p| - 1];
      DescendantWithin(n, up);
      var k := p[0];
      var q := p[1..];
      var child := n.children[k];
      if q != [] {
        assert up[0] == k && up[1..] == q[..|q| - 1];
      }
      assert At(n, p) == At(child, q);
      assert !IsDisjoint(n, begin, end) && !IsCovered(n, begin, end);
      assert CoveredPaths(n, parent, begin, end) == CoveredPathsChildren(n, 0, begin, end);
      OutermostCollected(child, Some(n), begin, end, q);
      PrefixedInChildren(n, 0, k, q, begin, end);
      assert p == [k] + q;
    } else {
      assert !IsDisjoint(n, begin, end);
    }
  }

  /** getFullyCoveredNodes finds exactly the outermost covered nodes of a
      well-nested tree: a path is collected if and only if it is outermost, and
      the node at an outermost path is returned at that path's position. */
  lemma FullyCoveredNodesComplete(n: AstNode, parent: Option<AstNode>, begin: int, end: int, p: Path)
    requires WellNested(n)
    ensures p in CoveredPaths(n, parent, begin, end) <==> Outermost(n, parent, begin, end, p)
    ensures |CoveredPaths(n, parent, begin, end)| == |FullyCovered(n, parent, begin, end)|
    ensures Outermost(n, parent, begin, end, p) ==>
              var paths := CoveredPaths(n, parent, begin, end);
              exists k :: 0 <= k < |paths| && paths[k] == p && FullyCovered(n, parent, begin, end)[k] == At(n, p)
  {
    CoveredPathsOutermost(n, parent, begin, end);
    CoveredPathsLocate(n, parent, begin, end);
    if Outermost(n, parent, begin, end, p) {
      OutermostCollected(n, parent, begin, end, p);
    }
  }

  /** A leaf contributes itself exactly when it lies inside the selection and
      its parent does not; a leaf strictly wider than the selection yields
      nothing. */
  lemma LeafCovered(leaf: AstNode, parent: Option<AstNode>, begin: int, end: int)
    requires leaf.children == []
    ensures FullyCovered(leaf, parent, begin, end) ==
              if IsCovered(leaf, begin, end) && !ParentCovered(parent, begin, end) then [leaf] else []
  {
  }

  // ---------------------------------------------------------------------------
  // getAssists
  // ---------------------------------------------------------------------------

  /** getAssists: no answer without a covering node; otherwise the proposal list,
      which is empty whenever a blocking error is present. The fully covered
      nodes are computed and not used. */
  method GetAssists(context: InvocationContext, locations: Option<seq<ProblemLocation>>, configurable: set<int>)
    returns (proposals: Option<seq<Proposal>>)
    ensures proposals.None? <==> context.coveringNode.None?
    ensures proposals.Some? && !NoBlockingError(locations, configurable) ==> proposals.value == []
    ensures proposals.Some? ==>
              proposals.value ==
                if NoBlockingError(locations, configurable) &&
                   CheckEligibility(context, context.coveringNode.value) == Eligible
                then [CreateTypeUsingWizard(context.compilationUnit, context.coveringNode.value.node,
                                            K_CLASS, None, PROPOSAL_RELEVANCE)]
                else []
  {
    if context.coveringNode.Some? {
      var coveringNode := context.coveringNode.value;
      var coveredNodes := GetFullyCoveredNodes(context, coveringNode);
      var resultingCollections := new ProposalList();
      var noErrors := NoErrorsAtLocation(locations, configurable);
      if noErrors {
        var _ := GetCreateInterfaceProposal(context, coveringNode, locations, resultingCollections);
      }
      return Some(resultingCollections.items);
    }
    return None;
  }
}

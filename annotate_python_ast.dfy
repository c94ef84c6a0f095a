/** `annotate_python_ast` in vyper/ast/annotation.py: the annotating pass with
    a fresh annotator, then the folding pass, over the tree the parser built. */
module Annotation {
  import opened AstNodes
  import opened Annotating
  import opened UnarySubRewrite

  /** What the caller's reference to the root shows after the folding pass.
      The pass's return value is dropped, so a root that is a negated literal
      once its children are folded is not replaced: it stays the unary node,
      whose operand slot now holds the negated literal. Any other root is the
      folded tree. */
  function RootAfterFold(t: Node): (r: Node)
    ensures !t.kind.UnaryOp? ==> r == Fold(t)
    ensures !IsNegatedLiteral(ChildrenFolded(t)) ==> r == Fold(t)
    ensures IsNegatedLiteral(ChildrenFolded(t)) ==>
      && r.meta == t.meta && r.kind == t.kind
      && |r.kids| == 2 && r.kids[0].kind == Operator(USub) && r.kids[1] == Fold(t)
  {
    var s := ChildrenFolded(t);
    if IsNegatedLiteral(s) then s.(kids := [s.kids[0], Fold(t)]) else Fold(t)
  }

  /** Folding leaves every class definition's class type as it was. */
  lemma {:induction false} FoldKeepsClassTypes(t: Node, ct: map<string, string>)
    requires ClassTypesResolved(t, ct)
    ensures ClassTypesResolved(Fold(t), ct)
    decreases t
  {
    var s := ChildrenFolded(t);
    forall i | 0 <= i < |t.kids|
      ensures ClassTypesResolved(s.kids[i], ct)
    {
      FoldedChildAt(t, i);
      FoldKeepsClassTypes(t.kids[i], ct);
    }
    if !IsNegatedLiteral(s) {
      assert Fold(t) == s;
    }
  }

  /** The root the caller holds after folding a tree numbered `0, 1, ...` in
      pre-order keeps the root's stamp, and its stamps still rise in pre-order
      within the original range, with one source text; class types stay
      resolved. This holds for every root, including one that is a negated
      literal and so is not replaced. */
  lemma RootAfterFoldKeeps(a: Node, src: string, ct: map<string, string>)
    requires NumberedFrom(Stamps(a), 0, src) && ClassTypesResolved(a, ct)
    ensures var r := RootAfterFold(a);
      && r.meta == a.meta
      && Ascending(Stamps(r)) && Within(Stamps(r), 0, Size(a), src)
      && ClassTypesResolved(r, ct)
  {
    var s := ChildrenFolded(a);
    if IsNegatedLiteral(s) {
      NegatedRootKeeps(a, src, ct);
    } else {
      FoldStamps(a, 0, src);
      FoldKeepsClassTypes(a, ct);
      FoldVariant(a);
    }
  }

  /** The unary root kept over its negated literal: its stamps are those of
      the root with its children folded, since the literal keeps its stamp
      and its children. */
  lemma NegatedRootKeeps(a: Node, src: string, ct: map<string, string>)
    requires NumberedFrom(Stamps(a), 0, src) && ClassTypesResolved(a, ct)
    requires IsNegatedLiteral(ChildrenFolded(a))
    ensures var r := RootAfterFold(a);
      && Ascending(Stamps(r)) && Within(Stamps(r), 0, Size(a), src)
      && ClassTypesResolved(r, ct)
  {
    var s := ChildrenFolded(a);
    var r := RootAfterFold(a);
    var n := |a.kids|;
    NumberedSplit([a.meta], StampsKids(a, n), 0, src);
    FoldKidsStamps(a, n, 1, src);
    AscendingJoin([a.meta], StampsKids(s, n), 0, 1, Size(a), src);
    var lit := s.kids[1];
    SameStamps(Fold(a), lit, |lit.kids|);
    assert StampsKids(r, 2) == StampsKids(s, 2);
    assert Stamps(r) == Stamps(s);
    FoldedChildAt(a, 0);
    FoldedChildAt(a, 1);
    FoldKeepsClassTypes(a.kids[0], ct);
    FoldKeepsClassTypes(a.kids[1], ct);
  }

  /** Annotation with a fresh annotator, then folding. For every root the
      result has: the root stamped 0, every node stamped with the one source
      text and an id below the original node count, ids ascending in
      pre-order and hence distinct with every parent before its descendants,
      and class types resolved by name. No negated literal is left unless the
      root itself is one once its children are folded, which line 74 keeps. */
  method AnnotatePythonAst(parsed: Node, sourceCode: string, classTypes: Option<map<string, string>>)
    returns (r: Node)
    ensures r == RootAfterFold(Annotated(parsed, 0, sourceCode, ClassTypesOrEmpty(classTypes)))
    ensures r.meta == Some(Meta(0, sourceCode))
    ensures Within(Stamps(r), 0, Size(parsed), sourceCode)
    ensures Ascending(Stamps(r))
    ensures DistinctIds(Stamps(r))
    ensures ParentFirst(r)
    ensures ClassTypesResolved(r, ClassTypesOrEmpty(classTypes))
    ensures !IsNegatedLiteral(ChildrenFolded(Annotated(parsed, 0, sourceCode, ClassTypesOrEmpty(classTypes)))) ==>
      NegationFree(r)
  {
    var annotator := new Annotator(sourceCode, classTypes);
    var annotated := annotator.Visit(parsed);
    r := RootAfterFold(annotated);
    var ct := ClassTypesOrEmpty(classTypes);
    AnnotatedRoot(parsed, 0, sourceCode, ct);
    AnnotatedStamps(parsed, 0, sourceCode, ct);
    AnnotatedClassTypes(parsed, 0, sourceCode, ct);
    RootAfterFoldKeeps(annotated, sourceCode, ct);
    AscendingDistinct(Stamps(r));
    AscendingParentFirst(r);
  }
}

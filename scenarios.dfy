/** Concrete trees and what the model gives for them: the ids the repository's tests
    expect, and what folding does to nested and top-level negations. */
module Scenarios {
  import opened AstNodes
  import opened Annotating
  import opened UnarySubRewrite
  import opened Annotation

  /** A freshly parsed name with its context node. */
  function NameNode(p: Pos, id: string, mode: ContextKind): (r: Node)
  {
    Node(None, Name(p, id), [Node(None, Context(mode), [])])
  }

  /** A freshly parsed unary minus over an integer literal. */
  function MinusLiteral(p: Pos, litPos: Pos, n: int): (r: Node)
  {
    Node(None, UnaryOp(p), [Node(None, Operator(USub), []), Node(None, Num(litPos, n), [])])
  }

  /** The parse of the one-line module `a: int128` (on line 2): an annotated
      assignment without a value, whose target and annotation are names,
      each with its context node. */
  function FieldDeclaration(): (r: Node)
  {
    Node(None, Module, [
      Node(None, Other("AnnAssign", Some(Pos(2, 0, 2, 9))), [
        NameNode(Pos(2, 0, 2, 1), "a", Store),
        NameNode(Pos(2, 3, 2, 9), "int128", Load)])])
  }

  /** A name takes `next` and its context node `next + 1`. */
  lemma NameIds(x: Node, next: nat, src: string, ct: map<string, string>)
    requires x.kind.Name? && |x.kids| == 1 && x.kids[0].kids == []
    ensures Size(x) == 2
    ensures var a := Annotated(x, next, src, ct);
      && a.kind == x.kind && |a.kids| == 1
      && a.meta == Some(Meta(next, src))
      && a.kids[0].meta == Some(Meta(next + 1, src))
  {
    assert SizeKids(x.kids[0], 0) == 0;
    assert SizeKids(x, 1) == 1;
    AnnotatedRoot(x, next, src, ct);
    AnnotatedKidAt(x, 1, 0, next + 1, src, ct);
    AnnotatedRoot(x.kids[0], next + 1, src, ct);
  }

  /** A declaration `target: annotation` takes `next`; its target and the
      target's context take the next two ids, the annotation and its context
      the two after. */
  lemma DeclarationIds(decl: Node, next: nat, src: string, ct: map<string, string>)
    requires !decl.kind.ClassDef? && |decl.kids| == 2
    requires decl.kids[0].kind.Name? && |decl.kids[0].kids| == 1 && decl.kids[0].kids[0].kids == []
    requires decl.kids[1].kind.Name? && |decl.kids[1].kids| == 1 && decl.kids[1].kids[0].kids == []
    ensures Size(decl) == 5
    ensures var d := Annotated(decl, next, src, ct);
      && d.kind == decl.kind && |d.kids| == 2
      && d.meta == Some(Meta(next, src))
      && |d.kids[0].kids| == 1 && |d.kids[1].kids| == 1
      && d.kids[0].meta == Some(Meta(next + 1, src))
      && d.kids[0].kids[0].meta == Some(Meta(next + 2, src))
      && d.kids[1].meta == Some(Meta(next + 3, src))
      && d.kids[1].kids[0].meta == Some(Meta(next + 4, src))
  {
    NameIds(decl.kids[0], next + 1, src, ct);
    NameIds(decl.kids[1], next + 3, src, ct);
    assert SizeKids(decl, 1) == 2;
    AnnotatedRoot(decl, next, src, ct);
    AnnotatedKidAt(decl, 2, 0, next + 1, src, ct);
    AnnotatedKidAt(decl, 2, 1, next + 1, src, ct);
  }

  /** The module is 0, the declaration 1, its target 2 and its annotation 4:
      the target's context node takes 3. */
  lemma FieldDeclarationIds(src: string)
    ensures var r := Annotated(FieldDeclaration(), 0, src, map[]);
      && |r.kids| == 1 && |r.kids[0].kids| == 2
      && |r.kids[0].kids[0].kids| == 1 && |r.kids[0].kids[1].kids| == 1
      && r.meta == Some(Meta(0, src))
      && r.kids[0].meta == Some(Meta(1, src))
      && r.kids[0].kids[0].meta == Some(Meta(2, src))
      && r.kids[0].kids[0].kids[0].meta == Some(Meta(3, src))
      && r.kids[0].kids[1].meta == Some(Meta(4, src))
      && r.kids[0].kids[1].kids[0].meta == Some(Meta(5, src))
  {
    var t := FieldDeclaration();
    DeclarationIds(t.kids[0], 1, src, map[]);
    AnnotatedRoot(t, 0, src, map[]);
    AnnotatedKidAt(t, 1, 0, 1, src, map[]);
  }

  /** A negated literal annotated from `next`: the unary node takes `next`,
      the minus sign `next + 1` and the literal `next + 2`; folding leaves
      only the literal, negated, with its id and the minus sign's column. */
  lemma NegatedLiteralIds(u: Node, next: nat, src: string, ct: map<string, string>)
    requires IsNegatedLiteral(u) && u.kids[0].kids == [] && u.kids[1].kids == []
    ensures Size(u) == 3
    ensures var lit := u.kids[1].kind;
      Fold(Annotated(u, next, src, ct)) ==
        Node(Some(Meta(next + 2, src)),
          Num(Pos(lit.pos.lineno, u.kind.pos.colOffset, lit.pos.endLineno, lit.pos.endColOffset), 0 - lit.n),
          [])
  {
    var op := u.kids[0];
    var lit := u.kids[1];
    assert SizeKids(op, 0) == 0 && SizeKids(lit, 0) == 0;
    assert SizeKids(u, 1) == 1;
    assert SizeKids(u, 2) == 2;
    var a := Annotated(u, next, src, ct);
    AnnotatedRoot(u, next, src, ct);
    AnnotatedKidAt(u, 2, 0, next + 1, src, ct);
    AnnotatedKidAt(u, 2, 1, next + 1, src, ct);
    AnnotatedRoot(op, next + 1, src, ct);
    AnnotatedRoot(lit, next + 2, src, ct);
    assert a.kids[0] == Node(Some(Meta(next + 1, src)), Operator(USub), []);
    assert a.kids[1] == Node(Some(Meta(next + 2, src)), lit.kind, []);
    ChildrenFoldedUnary(a);
    FoldVariant(a.kids[0]);
    FoldVariant(a.kids[1]);
  }

  /** The parse of `b: int128 = -22` on line 5, indented by four. */
  function NegativeAssignment(): (r: Node)
  {
    Node(None, Other("AnnAssign", Some(Pos(5, 4, 5, 19))), [
      NameNode(Pos(5, 4, 5, 5), "b", Store),
      NameNode(Pos(5, 7, 5, 13), "int128", Load),
      MinusLiteral(Pos(5, 16, 5, 19), Pos(5, 17, 5, 19), 22)])
  }

  /** Annotated from `next` and folded, the assignment's value is the literal
      -22 spanning columns 16..19 with id `next + 7`: the ids `next + 5` and
      `next + 6` of the unary node and its minus sign are gone. */
  lemma NegativeAssignmentFolds(next: nat, src: string)
    ensures var r := Fold(Annotated(NegativeAssignment(), next, src, map[]));
      && r.kind == NegativeAssignment().kind && |r.kids| == 3
      && r.meta == Some(Meta(next, src))
      && r.kids[2] == Node(Some(Meta(next + 7, src)), Num(Pos(5, 16, 5, 19), -22), [])
  {
    var t := NegativeAssignment();
    var u := t.kids[2];
    NameIds(t.kids[0], next + 1, src, map[]);
    NameIds(t.kids[1], next + 3, src, map[]);
    assert SizeKids(t, 2) == 4;
    NegatedLiteralIds(u, next + 5, src, map[]);
    var a := Annotated(t, next, src, map[]);
    AnnotatedRoot(t, next, src, map[]);
    AnnotatedKidAt(t, 3, 2, next + 1, src, map[]);
    assert a.kids[2] == Annotated(u, next + 5, src, map[]);
    assert !IsNegatedLiteral(ChildrenFolded(a));
    assert Fold(a).kids[2] == Fold(a.kids[2]);
  }

  /** `-(-5)` with the operator and literal nodes stamped 1..4 under the root 0. */
  function DoubleNegation(): (r: Node)
  {
    Node(Some(Meta(0, "")), UnaryOp(Pos(1, 0, 1, 5)), [
      Node(Some(Meta(1, "")), Operator(USub), []),
      Node(Some(Meta(2, "")), UnaryOp(Pos(1, 2, 1, 4)), [
        Node(Some(Meta(3, "")), Operator(USub), []),
        Node(Some(Meta(4, "")), Num(Pos(1, 3, 1, 4), 5), [])])])
  }

  /** Folding is bottom-up, so `-(-5)` becomes the literal 5: it keeps the
      literal's id 4 and end position and takes the outer minus sign's start
      column; ids 0..3 are gone. */
  lemma DoubleNegationFolds()
    ensures Fold(DoubleNegation()) == Node(Some(Meta(4, "")), Num(Pos(1, 0, 1, 4), 5), [])
  {
    var t := DoubleNegation();
    var inner := t.kids[1];
    ChildrenFoldedUnary(inner);
    FoldVariant(inner.kids[0]);
    FoldVariant(inner.kids[1]);
    assert Fold(inner) == Node(Some(Meta(4, "")), Num(Pos(1, 2, 1, 4), -5), []);
    ChildrenFoldedUnary(t);
    FoldVariant(t.kids[0]);
  }

  /** A negated literal as the root: the folding pass's result is dropped, so
      the caller still holds the unary node, now over the literal `-5`, and
      the expression stands for 5 instead of -5. */
  lemma NegatedRootKeepsMinus()
    ensures var t := MinusLiteral(Pos(1, 0, 1, 2), Pos(1, 1, 1, 2), 5);
      && LiteralValue(t) == Some(-5)
      && RootAfterFold(t) == MinusLiteral(Pos(1, 0, 1, 2), Pos(1, 0, 1, 2), -5)
      && LiteralValue(RootAfterFold(t)) == Some(5)
  {
    var t := MinusLiteral(Pos(1, 0, 1, 2), Pos(1, 1, 1, 2), 5);
    ChildrenFoldedUnary(t);
    FoldVariant(t.kids[0]);
    FoldVariant(t.kids[1]);
  }
}

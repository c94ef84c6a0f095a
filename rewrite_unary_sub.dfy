/** The folding pass (`RewriteUnarySubVisitor` in vyper/ast/annotation.py): a
    bottom-up walk that replaces `-<integer literal>` by the negated literal. */
module UnarySubRewrite {
  import opened AstNodes

  /** The one shape the pass rewrites: unary minus applied directly to a number. */
  predicate IsNegatedLiteral(s: Node)
  {
    s.kind.UnaryOp? && |s.kids| == 2 && s.kids[0].kind == Operator(USub) && s.kids[1].kind.Num?
  }

  /** No negated literal anywhere in `t`. */
  ghost predicate NegationFree(t: Node)
    decreases t
  {
    && !IsNegatedLiteral(t)
    && (forall i :: 0 <= i < |t.kids| ==> NegationFree(t.kids[i]))
  }

  /** The integer an expression built from integer literals and the unary
      operators `-`, `+` and `~` stands for; `None` for anything else. */
  function LiteralValue(t: Node): (r: Option<int>)
  {
    match t.kind
    case Num(_, n) => Some(n)
    case UnaryOp(_) =>
      if |t.kids| == 2 && t.kids[0].kind.Operator? then
        var v := LiteralValue(t.kids[1]);
        if v.None? then None
        else
          match t.kids[0].kind.op
          case USub => Some(0 - v.value)
          case UAdd => Some(v.value)
          case Invert => Some(0 - v.value - 1)
          case _ => None
      else None
    case _ => None
  }

  /** `visit_UnaryOp` once its children are visited: a negated literal is
      replaced by its operand, whose value is negated and whose start column
      becomes the unary node's; anything else is returned as it is. */
  function RewriteNegation(s: Node): (r: Node)
    ensures IsNegatedLiteral(s) ==>
      && r.kind.Num?
      && r.kind.n == 0 - s.kids[1].kind.n
      && r.meta == s.kids[1].meta
      && r.kids == s.kids[1].kids
      && r.kind.pos.colOffset == s.kind.pos.colOffset
      && r.kind.pos.lineno == s.kids[1].kind.pos.lineno
      && r.kind.pos.endLineno == s.kids[1].kind.pos.endLineno
      && r.kind.pos.endColOffset == s.kids[1].kind.pos.endColOffset
    ensures !IsNegatedLiteral(s) ==> r == s
    ensures LiteralValue(r) == LiteralValue(s)
  {
    if IsNegatedLiteral(s) then
      var lit := s.kids[1];
      lit.(kind := Num(lit.kind.pos.(colOffset := s.kind.pos.colOffset), 0 - lit.kind.n))
    else s
  }

  /** The whole pass over `t`: children first, then the rewrite at `t`. */
  function Fold(t: Node): (r: Node)
    decreases t, 2
    ensures NegationFree(r)
  {
    RewriteNegation(ChildrenFolded(t))
  }

  /** `t` with each child replaced by its folded form (the `generic_visit`
      that `visit_UnaryOp` runs first, and that every other node gets). */
  function ChildrenFolded(t: Node): (r: Node)
    decreases t, 1
    ensures r.meta == t.meta && r.kind == t.kind && |r.kids| == |t.kids|
    ensures r.kids == FoldedChildren(t)
    ensures forall i :: 0 <= i < |r.kids| ==> NegationFree(r.kids[i])
  {
    t.(kids := FoldedChildren(t))
  }

  function FoldedChildren(t: Node): (r: seq<Node>)
    decreases t, 0
    ensures |r| == |t.kids|
  {
    seq(|t.kids|, i requires 0 <= i < |t.kids| => Fold(t.kids[i]))
  }

  /** Folding turns only unary nodes into other nodes, and only into numbers.
      Any other node keeps its kind and stamp, and a node without children
      comes out exactly as it went in. */
  lemma FoldVariant(t: Node)
    ensures !t.kind.UnaryOp? ==> Fold(t).kind == t.kind && Fold(t).meta == t.meta
    ensures t.kind.UnaryOp? ==> Fold(t).kind.UnaryOp? || Fold(t).kind.Num?
    ensures t.kids == [] ==> Fold(t) == t
  {
    if t.kids == [] {
      assert ChildrenFolded(t) == t;
    }
  }

  /** Each child of `ChildrenFolded(t)` is the folded child of `t` in the same slot. */
  lemma FoldedChildAt(t: Node, i: nat)
    requires i < |t.kids|
    ensures ChildrenFolded(t).kids[i] == Fold(t.kids[i])
  {
  }

  /** A unary node with its children folded. */
  lemma ChildrenFoldedUnary(t: Node)
    requires |t.kids| == 2
    ensures ChildrenFolded(t) == t.(kids := [Fold(t.kids[0]), Fold(t.kids[1])])
  {
  }

  /** Folding never changes the integer an expression stands for. */
  lemma {:induction false} FoldPreservesValue(t: Node)
    ensures LiteralValue(Fold(t)) == LiteralValue(t)
    decreases t
  {
    if t.kind.UnaryOp? && |t.kids| == 2 {
      ChildrenFoldedUnary(t);
      FoldVariant(t.kids[0]);
      FoldPreservesValue(t.kids[1]);
      UnaryValue(t, Fold(t.kids[0]), Fold(t.kids[1]));
    } else {
      FoldVariant(t);
    }
  }

  /** Replacing a unary node's children by ones with the same operator and
      the same value keeps its value. */
  lemma UnaryValue(t: Node, op: Node, operand: Node)
    requires t.kind.UnaryOp? && |t.kids| == 2
    requires !t.kids[0].kind.UnaryOp? ==> op.kind == t.kids[0].kind
    requires t.kids[0].kind.UnaryOp? ==> !op.kind.Operator?
    requires LiteralValue(operand) == LiteralValue(t.kids[1])
    ensures LiteralValue(t.(kids := [op, operand])) == LiteralValue(t)
  {
  }

  /** A tree with no negated literal is left exactly as it is. */
  lemma {:induction false} FoldNegationFree(t: Node)
    requires NegationFree(t)
    ensures Fold(t) == t
    decreases t
  {
    forall i | 0 <= i < |t.kids|
      ensures Fold(t.kids[i]) == t.kids[i]
    {
      FoldNegationFree(t.kids[i]);
    }
    assert FoldedChildren(t) == t.kids;
  }

  /** Folding twice is folding once. */
  lemma FoldIdempotent(t: Node)
    ensures Fold(Fold(t)) == Fold(t)
  {
    FoldNegationFree(Fold(t));
  }

  /** Folding keeps every node's child slots as its kind prescribes: a
      rewritten node is a number literal, which has none. */
  lemma {:induction false} FoldWellFormed(t: Node)
    requires WellFormed(t)
    ensures WellFormed(Fold(t))
    decreases t
  {
    var s := ChildrenFolded(t);
    forall i | 0 <= i < |t.kids|
      ensures WellFormed(s.kids[i])
    {
      FoldedChildAt(t, i);
      FoldWellFormed(t.kids[i]);
    }
    if t.kind.UnaryOp? || t.kind.Name? {
      FoldVariant(t.kids[0]);
    }
    if !IsNegatedLiteral(s) {
      assert Fold(t) == s;
    }
  }

  /** Folding a tree numbered consecutively from `lo` only drops nodes: the
      result's ids still rise in pre-order and stay in `lo .. lo + Size(t) - 1`,
      all with the same source text. So a folded tree keeps distinct ids and
      parents before descendants, though the ids of the dropped unary and
      operator nodes leave gaps. */
  lemma {:induction false} FoldStamps(t: Node, lo: nat, src: string)
    requires NumberedFrom(Stamps(t), lo, src)
    ensures Ascending(Stamps(Fold(t))) && Within(Stamps(Fold(t)), lo, lo + Size(t), src)
    decreases t, 1
  {
    var s := ChildrenFolded(t);
    var n := |t.kids|;
    NumberedSplit([t.meta], StampsKids(t, n), lo, src);
    FoldKidsStamps(t, n, lo + 1, src);
    if IsNegatedLiteral(s) {
      var lit := s.kids[1];
      assert StampsKids(s, 2) == StampsKids(s, 1) + Stamps(lit);
      AscendingSplit(StampsKids(s, 1), Stamps(lit));
      WithinSplit(StampsKids(s, 1), Stamps(lit), lo + 1, lo + Size(t), src);
      SameStamps(Fold(t), lit, |lit.kids|);
    } else {
      assert Fold(t) == s;
      AscendingJoin([t.meta], StampsKids(s, n), lo, lo + 1, lo + Size(t), src);
    }
  }

  lemma {:induction false} FoldKidsStamps(t: Node, k: nat, lo: nat, src: string)
    requires k <= |t.kids|
    requires NumberedFrom(StampsKids(t, k), lo, src)
    ensures Ascending(StampsKids(ChildrenFolded(t), k))
    ensures Within(StampsKids(ChildrenFolded(t), k), lo, lo + SizeKids(t, k), src)
    decreases t, 0, k
  {
    if k > 0 {
      var s := ChildrenFolded(t);
      var c := t.kids[k - 1];
      var mid := lo + SizeKids(t, k - 1);
      NumberedSplit(StampsKids(t, k - 1), Stamps(c), lo, src);
      FoldKidsStamps(t, k - 1, lo, src);
      FoldStamps(c, mid, src);
      assert StampsKids(s, k) == StampsKids(s, k - 1) + Stamps(Fold(c)) by {
        FoldedChildAt(t, k - 1);
      }
      AscendingJoin(StampsKids(s, k - 1), Stamps(Fold(c)), lo, mid, mid + Size(c), src);
    }
  }
}

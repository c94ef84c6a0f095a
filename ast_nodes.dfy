/** The slice of Python's syntax tree that the annotation passes of the Vyper
    front end look at.

    A node is its stamp, its kind with the kind's own scalar fields, and its
    child nodes in the order Python's `NodeTransformer` visits them (field
    order, list entries in order). The stamp is the `node_id` and the shared
    source text that the annotating pass attaches; it is `None` on a freshly
    parsed tree, where Python's node has no such attributes yet. */
module AstNodes {

  datatype Option<T> = None | Some(value: T)

  /** Line/column span set by the parser. */
  datatype Pos = Pos(lineno: int, colOffset: int, endLineno: int, endColOffset: int)

  /** What the annotating pass stamps on a node. */
  datatype Meta = Meta(nodeId: nat, sourceCode: string)

  /** Python's unary operators; binary, boolean and comparison operators
      appear as `OtherOperator`. */
  datatype OperatorKind = UAdd | USub | Not | Invert | OtherOperator(opName: string)

  /** Python's expression contexts. */
  datatype ContextKind = Load | Store | Del

  /** The node kinds the passes tell apart, each with its scalar fields.
      Operator, context and module nodes have no position. */
  datatype Kind =
    | Module
    | ClassDef(pos: Pos, name: string, classType: Option<string>)
    | UnaryOp(pos: Pos)
    | Num(pos: Pos, n: int)
    | Name(pos: Pos, id: string)
    | Operator(op: OperatorKind)
    | Context(mode: ContextKind)
      /** Any other node kind, named by its tag. */
    | Other(tag: string, span: Option<Pos>)

  /** The child slots by kind: a module's body; a class definition's bases,
      keywords, body and decorators; a unary operation's operator and then
      its operand; a name's context; for any other kind its child nodes in
      field order. Numbers, operators and contexts have none. */
  datatype Node = Node(meta: Option<Meta>, kind: Kind, kids: seq<Node>)

  /** Every node has the child slots its kind prescribes. */
  ghost predicate WellFormed(t: Node)
    decreases t
  {
    && (t.kind.UnaryOp? ==> |t.kids| == 2 && t.kids[0].kind.Operator?)
    && (t.kind.Name? ==> |t.kids| == 1 && t.kids[0].kind.Context?)
    && (t.kind.Num? || t.kind.Operator? || t.kind.Context? ==> t.kids == [])
    && (forall i :: 0 <= i < |t.kids| ==> WellFormed(t.kids[i]))
  }

  /** Number of nodes in the tree rooted at `t`. */
  function Size(t: Node): nat
    decreases t, 1
  {
    1 + SizeKids(t, |t.kids|)
  }

  /** Number of nodes in the first `k` child subtrees of `t`. */
  function SizeKids(t: Node, k: nat): nat
    requires k <= |t.kids|
    decreases t, 0, k
  {
    if k == 0 then 0 else SizeKids(t, k - 1) + Size(t.kids[k - 1])
  }

  /** The stamps of all nodes of `t`, in pre-order: a node before its
      children, earlier children before later ones. */
  function Stamps(t: Node): (r: seq<Option<Meta>>)
    decreases t, 1
    ensures |r| == Size(t) && r[0] == t.meta
  {
    [t.meta] + StampsKids(t, |t.kids|)
  }

  /** The pre-order stamps of the first `k` child subtrees of `t`. */
  function StampsKids(t: Node, k: nat): (r: seq<Option<Meta>>)
    requires k <= |t.kids|
    decreases t, 0, k
    ensures |r| == SizeKids(t, k)
  {
    if k == 0 then [] else StampsKids(t, k - 1) + Stamps(t.kids[k - 1])
  }

  /** Every entry is a stamp, and node ids strictly increase along the sequence. */
  ghost predicate Ascending(s: seq<Option<Meta>>)
  {
    && (forall i :: 0 <= i < |s| ==> s[i].Some?)
    && (forall i, j :: 0 <= i < j < |s| ==> s[i].value.nodeId < s[j].value.nodeId)
  }

  /** Every entry is a stamp with source text `src` and an id in `lo .. hi - 1`. */
  ghost predicate Within(s: seq<Option<Meta>>, lo: int, hi: int, src: string)
  {
    forall i :: 0 <= i < |s| ==>
      s[i].Some? && s[i].value.sourceCode == src && lo <= s[i].value.nodeId < hi
  }

  /** `s` holds the ids `start`, `start + 1`, ... in order, each with the source `src`. */
  ghost predicate NumberedFrom(s: seq<Option<Meta>>, start: nat, src: string)
  {
    forall i :: 0 <= i < |s| ==> s[i] == Some(Meta(start + i, src))
  }

  /** No two entries carry the same node id. */
  ghost predicate DistinctIds(s: seq<Option<Meta>>)
  {
    forall i, j :: 0 <= i < |s| && 0 <= j < |s| && i != j && s[i].Some? && s[j].Some? ==>
      s[i].value.nodeId != s[j].value.nodeId
  }

  /** Every node of `t` is stamped and has a smaller id than each of its descendants. */
  ghost predicate ParentFirst(t: Node)
    decreases t
  {
    var s := Stamps(t);
    && t.meta.Some?
    && (forall j :: 1 <= j < |s| ==> s[j].Some? && t.meta.value.nodeId < s[j].value.nodeId)
    && (forall i :: 0 <= i < |t.kids| ==> ParentFirst(t.kids[i]))
  }

  lemma NumberedJoin(x: seq<Option<Meta>>, y: seq<Option<Meta>>, start: nat, src: string)
    requires NumberedFrom(x, start, src) && NumberedFrom(y, start + |x|, src)
    ensures NumberedFrom(x + y, start, src)
  {
  }

  lemma NumberedSplit(x: seq<Option<Meta>>, y: seq<Option<Meta>>, start: nat, src: string)
    requires NumberedFrom(x + y, start, src)
    ensures NumberedFrom(x, start, src) && NumberedFrom(y, start + |x|, src)
  {
    var xy := x + y;
    forall i | 0 <= i < |x| ensures x[i] == Some(Meta(start + i, src)) { assert x[i] == xy[i]; }
    forall i | 0 <= i < |y| ensures y[i] == Some(Meta(start + |x| + i, src)) { assert y[i] == xy[|x| + i]; }
  }

  /** Consecutive ids from `start` are ascending and lie in `start .. start + |s| - 1`. */
  lemma NumberedAscending(s: seq<Option<Meta>>, start: nat, src: string)
    requires NumberedFrom(s, start, src)
    ensures Ascending(s) && Within(s, start, start + |s|, src)
  {
  }

  /** A sequence of ascending stamps has no repeated id. */
  lemma AscendingDistinct(s: seq<Option<Meta>>)
    requires Ascending(s)
    ensures DistinctIds(s)
  {
    forall i, j | 0 <= i < |s| && 0 <= j < |s| && i != j
      ensures s[i].value.nodeId != s[j].value.nodeId
    {
      if i < j { assert s[i].value.nodeId < s[j].value.nodeId; }
      else { assert s[j].value.nodeId < s[i].value.nodeId; }
    }
  }

  /** Both halves of an ascending concatenation are ascending, and every id in
      the first half is below every id in the second. */
  lemma AscendingSplit(a: seq<Option<Meta>>, b: seq<Option<Meta>>)
    requires Ascending(a + b)
    ensures Ascending(a) && Ascending(b)
    ensures forall i, j :: 0 <= i < |a| && 0 <= j < |b| ==> a[i].value.nodeId < b[j].value.nodeId
  {
    var ab := a + b;
    assert forall i :: 0 <= i < |a| ==> a[i] == ab[i];
    assert forall i :: 0 <= i < |b| ==> b[i] == ab[|a| + i];
  }

  /** Both halves of a concatenation whose stamps lie in a range lie in it. */
  lemma WithinSplit(a: seq<Option<Meta>>, b: seq<Option<Meta>>, lo: int, hi: int, src: string)
    requires Within(a + b, lo, hi, src)
    ensures Within(a, lo, hi, src) && Within(b, lo, hi, src)
  {
    var ab := a + b;
    assert forall i :: 0 <= i < |a| ==> a[i] == ab[i];
    assert forall i :: 0 <= i < |b| ==> b[i] == ab[|a| + i];
  }

  /** Two nodes with the same stamp and the same children have the same stamps. */
  lemma {:induction false} SameStamps(a: Node, b: Node, k: nat)
    requires a.meta == b.meta && a.kids == b.kids && k <= |a.kids|
    ensures StampsKids(a, k) == StampsKids(b, k)
    ensures k == |a.kids| ==> Stamps(a) == Stamps(b)
    decreases k
  {
    if k > 0 {
      SameStamps(a, b, k - 1);
    }
  }

  /** Two ascending sequences, the first with ids below `mid` and the second
      with ids from `mid` on, concatenate to an ascending sequence. */
  lemma AscendingJoin(a: seq<Option<Meta>>, b: seq<Option<Meta>>, lo: int, mid: int, hi: int, src: string)
    requires lo <= mid <= hi
    requires Ascending(a) && Within(a, lo, mid, src)
    requires Ascending(b) && Within(b, mid, hi, src)
    ensures Ascending(a + b) && Within(a + b, lo, hi, src)
  {
  }

  /** The pre-order stamps of each of the first `k` children are a slice of the
      children's stamps, so they are ascending when those are. */
  lemma {:induction false} AscendingKid(t: Node, k: nat, i: nat)
    requires i < k <= |t.kids|
    requires Ascending(StampsKids(t, k))
    ensures Ascending(Stamps(t.kids[i]))
    decreases k
  {
    AscendingSplit(StampsKids(t, k - 1), Stamps(t.kids[k - 1]));
    if i < k - 1 {
      AscendingKid(t, k - 1, i);
    }
  }

  /** Ids ascending in pre-order means every parent's id is below all of its
      descendants' ids, at every node of the tree. */
  lemma {:induction false} AscendingParentFirst(t: Node)
    requires Ascending(Stamps(t))
    ensures ParentFirst(t)
    decreases t
  {
    var n := |t.kids|;
    AscendingSplit([t.meta], StampsKids(t, n));
    forall i | 0 <= i < n
      ensures ParentFirst(t.kids[i])
    {
      AscendingKid(t, n, i);
      AscendingParentFirst(t.kids[i]);
    }
  }
}

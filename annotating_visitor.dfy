/** The annotating pass (`AnnotatingVisitor` in vyper/ast/annotation.py): one
    pre-order walk that stamps every node with the shared source text and the
    next value of a counter, and gives each class definition the class type
    its name maps to. */
module Annotating {
  import opened AstNodes

  /** `dict.get`: the value stored under `key`, or `None` when there is none. */
  function Get(m: map<string, string>, key: string): (r: Option<string>)
  {
    if key in m then Some(m[key]) else None
  }

  /** A missing class-type mapping stands for an empty one. */
  function ClassTypesOrEmpty(classTypes: Option<map<string, string>>): (r: map<string, string>)
  {
    if classTypes.Some? then classTypes.value else map[]
  }

  /** The tree the pass returns for `t` when the counter holds `next` on entry:
      the generic visit, and for a class definition then its class type. */
  function Annotated(t: Node, next: nat, src: string, ct: map<string, string>): (r: Node)
    decreases t, 2
    ensures r.meta == Some(Meta(next, src))
    ensures r.kind.ClassDef? ==> r.kind.classType == Get(ct, r.kind.name)
    ensures |r.kids| == |t.kids|
  {
    var d := Decorated(t, next, src, ct);
    if t.kind.ClassDef? then d.(kind := t.kind.(classType := Get(ct, t.kind.name))) else d
  }

  /** What `generic_visit` returns: `t` stamped with `next`, its children
      annotated in order, each starting where the previous subtree stopped. */
  function Decorated(t: Node, next: nat, src: string, ct: map<string, string>): (r: Node)
    decreases t, 1
  {
    t.(meta := Some(Meta(next, src)), kids := AnnotatedKids(t, |t.kids|, next + 1, src, ct))
  }

  /** The first `k` children of `t` annotated in order, from counter value `next`. */
  function AnnotatedKids(t: Node, k: nat, next: nat, src: string, ct: map<string, string>): (r: seq<Node>)
    requires k <= |t.kids|
    decreases t, 0, k
    ensures |r| == k
  {
    if k == 0 then []
    else AnnotatedKids(t, k - 1, next, src, ct) + [Annotated(t.kids[k - 1], next + SizeKids(t, k - 1), src, ct)]
  }

  /** A kind with the class type erased. */
  function Erased(k: Kind): (r: Kind)
  {
    if k.ClassDef? then k.(classType := None) else k
  }

  /** `t` with everything the annotating pass writes erased: no stamps and no
      class types. Two trees with the same `Shape` differ only in annotations. */
  function Shape(t: Node): (r: Node)
    decreases t, 1
  {
    Node(None, Erased(t.kind), ShapeKids(t, |t.kids|))
  }

  function ShapeKids(t: Node, k: nat): (r: seq<Node>)
    requires k <= |t.kids|
    decreases t, 0, k
    ensures |r| == k
  {
    if k == 0 then [] else ShapeKids(t, k - 1) + [Shape(t.kids[k - 1])]
  }

  /** Every class definition in `t` carries the class type its name maps to in `ct`. */
  ghost predicate ClassTypesResolved(t: Node, ct: map<string, string>)
    decreases t
  {
    && (t.kind.ClassDef? ==> t.kind.classType == Get(ct, t.kind.name))
    && (forall i :: 0 <= i < |t.kids| ==> ClassTypesResolved(t.kids[i], ct))
  }

  /** The root of the annotated tree carries `next` and `src`, keeps its kind
      up to the class type, and its child slots hold the annotated children. */
  lemma AnnotatedRoot(t: Node, next: nat, src: string, ct: map<string, string>)
    ensures Annotated(t, next, src, ct).meta == Some(Meta(next, src))
    ensures Erased(Annotated(t, next, src, ct).kind) == Erased(t.kind)
    ensures Annotated(t, next, src, ct).kids == AnnotatedKids(t, |t.kids|, next + 1, src, ct)
  {
  }

  lemma {:induction false} AnnotatedKidAt(t: Node, k: nat, i: nat, next: nat, src: string, ct: map<string, string>)
    requires i < k <= |t.kids|
    ensures AnnotatedKids(t, k, next, src, ct)[i] == Annotated(t.kids[i], next + SizeKids(t, i), src, ct)
    decreases k
  {
    if i < k - 1 { AnnotatedKidAt(t, k - 1, i, next, src, ct); }
  }

  /** Annotating from counter value `next` stamps the nodes of `t`, in
      pre-order, with exactly the ids `next .. next + Size(t) - 1`, all with
      the same source text `src`. */
  lemma {:induction false} AnnotatedStamps(t: Node, next: nat, src: string, ct: map<string, string>)
    ensures Size(Annotated(t, next, src, ct)) == Size(t)
    ensures NumberedFrom(Stamps(Annotated(t, next, src, ct)), next, src)
    decreases t, 1
  {
    var a := Annotated(t, next, src, ct);
    var n := |t.kids|;
    AnnotatedKidsStamps(t, n, next, src, ct);
    NumberedJoin([a.meta], StampsKids(a, n), next, src);
  }

  /** The children of a node annotated from `next`, numbered one subtree after
      another from `next + 1`. */
  lemma {:induction false} AnnotatedKidsStamps(t: Node, k: nat, next: nat, src: string, ct: map<string, string>)
    requires k <= |t.kids|
    ensures SizeKids(Annotated(t, next, src, ct), k) == SizeKids(t, k)
    ensures NumberedFrom(StampsKids(Annotated(t, next, src, ct), k), next + 1, src)
    decreases t, 0, k
  {
    if k > 0 {
      var a := Annotated(t, next, src, ct);
      var c := t.kids[k - 1];
      var start := next + 1 + SizeKids(t, k - 1);
      AnnotatedKidsStamps(t, k - 1, next, src, ct);
      AnnotatedRoot(t, next, src, ct);
      AnnotatedKidAt(t, |t.kids|, k - 1, next + 1, src, ct);
      assert a.kids[k - 1] == Annotated(c, start, src, ct);
      AnnotatedStamps(c, start, src, ct);
      var prev := StampsKids(a, k - 1);
      var last := Stamps(Annotated(c, start, src, ct));
      assert |prev| == SizeKids(t, k - 1);
      NumberedJoin(prev, last, next + 1, src);
      assert StampsKids(a, k) == prev + last;
    }
  }

  /** The ids the pass hands out are strictly increasing in pre-order, so
      they are pairwise distinct and every parent's id is below all of its
      descendants' ids. */
  lemma AnnotatedIdsOrdered(t: Node, next: nat, src: string, ct: map<string, string>)
    ensures Ascending(Stamps(Annotated(t, next, src, ct)))
    ensures DistinctIds(Stamps(Annotated(t, next, src, ct)))
    ensures ParentFirst(Annotated(t, next, src, ct))
  {
    AnnotatedStamps(t, next, src, ct);
    var s := Stamps(Annotated(t, next, src, ct));
    NumberedAscending(s, next, src);
    AscendingDistinct(s);
    AscendingParentFirst(Annotated(t, next, src, ct));
  }

  /** Annotation never changes the tree's shape: only stamps and class types differ. */
  lemma {:induction false} AnnotatedShape(t: Node, next: nat, src: string, ct: map<string, string>)
    ensures Shape(Annotated(t, next, src, ct)) == Shape(t)
    decreases t, 1
  {
    AnnotatedKidsShape(t, |t.kids|, next, src, ct);
  }

  lemma {:induction false} AnnotatedKidsShape(t: Node, k: nat, next: nat, src: string, ct: map<string, string>)
    requires k <= |t.kids|
    ensures ShapeKids(Annotated(t, next, src, ct), k) == ShapeKids(t, k)
    decreases t, 0, k
  {
    if k > 0 {
      var a := Annotated(t, next, src, ct);
      var c := t.kids[k - 1];
      AnnotatedKidsShape(t, k - 1, next, src, ct);
      AnnotatedKidAt(t, |t.kids|, k - 1, next + 1, src, ct);
      AnnotatedShape(c, next + 1 + SizeKids(t, k - 1), src, ct);
      assert Shape(a.kids[k - 1]) == Shape(c);
    }
  }

  /** After annotation every class definition holds `ct.get(name)`; the class
      type of no other node is touched, since no other kind has one. */
  lemma {:induction false} AnnotatedClassTypes(t: Node, next: nat, src: string, ct: map<string, string>)
    ensures ClassTypesResolved(Annotated(t, next, src, ct), ct)
    decreases t
  {
    var a := Annotated(t, next, src, ct);
    var n := |t.kids|;
    AnnotatedRoot(t, next, src, ct);
    forall i | 0 <= i < n
      ensures ClassTypesResolved(a.kids[i], ct)
    {
      AnnotatedKidAt(t, n, i, next + 1, src, ct);
      AnnotatedClassTypes(t.kids[i], next + 1 + SizeKids(t, i), src, ct);
    }
  }

  /** `AnnotatingVisitor`: the counter is its only changing state; the source
      text and the class-type mapping are fixed when it is created. */
  class Annotator {
    const sourceCode: string
    const classTypes: map<string, string>
    var counter: nat

    /** A fresh annotator counts from 0; no mapping means an empty one. */
    constructor (sourceCode: string, classTypes: Option<map<string, string>>)
      ensures this.sourceCode == sourceCode
      ensures this.classTypes == ClassTypesOrEmpty(classTypes)
      ensures counter == 0
    {
      this.sourceCode := sourceCode;
      this.counter := 0;
      if classTypes.Some? {
        this.classTypes := classTypes.value;
      } else {
        this.classTypes := map[];
      }
    }

    /** `visit`: dispatch on the node kind. */
    method Visit(t: Node) returns (r: Node)
      modifies this
      decreases t, 2
      ensures counter == old(counter) + Size(t)
      ensures r == Annotated(t, old(counter), sourceCode, classTypes)
    {
      if t.kind.ClassDef? {
        r := VisitClassDef(t);
      } else {
        r := GenericVisit(t);
      }
    }

    /** `generic_visit`: stamp the node with the source text and the current
        counter, advance the counter, then visit the children in order and
        store each result back into its slot. */
    method GenericVisit(t: Node) returns (r: Node)
      modifies this
      decreases t, 0
      ensures counter == old(counter) + Size(t)
      ensures r == Decorated(t, old(counter), sourceCode, classTypes)
    {
      var stamp := Some(Meta(counter, sourceCode));
      ghost var start := counter;
      counter := counter + 1;
      var visited: seq<Node> := [];
      var i := 0;
      while i < |t.kids|
        invariant 0 <= i <= |t.kids|
        invariant counter == start + 1 + SizeKids(t, i)
        invariant visited == AnnotatedKids(t, i, start + 1, sourceCode, classTypes)
      {
        var v := Visit(t.kids[i]);
        visited := visited + [v];
        i := i + 1;
      }
      r := t.(meta := stamp, kids := visited);
    }

    /** `visit_ClassDef`: the generic visit, then the class type by name. */
    method VisitClassDef(t: Node) returns (r: Node)
      requires t.kind.ClassDef?
      modifies this
      decreases t, 1
      ensures counter == old(counter) + Size(t)
      ensures r == Annotated(t, old(counter), sourceCode, classTypes)
    {
      r := GenericVisit(t);
      r := r.(kind := r.kind.(classType := Get(classTypes, r.kind.name)));
    }
  }
}

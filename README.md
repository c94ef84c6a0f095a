# Annotation passes of the Vyper front end

Vyper parses a contract with Python's `ast` module. It then runs two passes
over the fresh tree, both in `vyper/ast/annotation.py`, before any semantic
analysis.

1. **Annotating pass** (`AnnotatingVisitor`). One pre-order walk. It stamps
   every node with the contract's source text and with a `node_id` taken
   from a counter that starts at 0. It gives every class definition the
   class type that its name maps to in an optional dictionary.
2. **Folding pass** (`RewriteUnarySubVisitor`). A bottom-up walk. It replaces
   unary minus applied directly to a number literal by that literal. The
   literal's value is negated and its start column becomes the unary node's.

`annotate_python_ast` runs the first pass and then the second.

The model has five modules:

- `AstNodes` (`ast_nodes.dfy`): the syntax tree. A node is its stamp
  (`node_id` and source text, absent before annotation), its kind with the
  kind's scalar fields, and its child nodes in the order the visitors walk
  them. `WellFormed` fixes the child slots of unary operations (an operator,
  then the operand) and names (one context), and makes numbers, operators
  and contexts leaves; it leaves the children of other kinds open. The module
  also defines the pre-order list of node stamps.
- `Annotating` (`annotating_visitor.dfy`): the annotating pass.
  - `Annotator` is a class. It holds the source text, the class-type map and
    the mutable counter.
  - Its methods `Visit`, `GenericVisit` and `VisitClassDef` mirror the
    visitor's methods.
  - `Visit` and `VisitClassDef` are proved to return the pure function
    `Annotated`, and `GenericVisit` to return `Decorated`, the generic part
    of it. Each advances the counter by the size of the subtree it visits.
  - Lemmas about `Annotated` state the id, source, shape and class-type
    properties.
- `UnarySubRewrite` (`rewrite_unary_sub.dfy`): the folding pass as a
  recursive rebuild (`Fold`). `LiteralValue`, the integer an expression
  stands for, is the reference that folding is proved to preserve.
- `Annotation` (`annotate_python_ast.dfy`): the two passes in sequence,
  including what the caller sees when the root is itself foldable.
- `Scenarios` (`scenarios.dfy`): concrete trees that the repository's tests
  use, with the ids and folds they expect.

Two facts about the code shape the model:

- `class_type` is written on class definitions only (vyper/ast/annotation.py:37)
  and never on other nodes, so only the `ClassDef` kind carries it.
- `annotate_python_ast` discards the value the folding visitor returns for
  the root (vyper/ast/annotation.py:74). A root that is itself `-<literal>`
  therefore stays a unary node whose operand was negated in place
  (`RootAfterFold`). The parser's root is always a module, so this changes
  nothing for real input.

## Model

| member | source | states |
|---|---|---|
| Annotating.Annotator.constructor | vyper/ast/annotation.py:16-22 | A fresh annotator keeps the source text, starts its counter at 0, and uses the given class-type map or an empty map when none is given. |
| Annotating.Annotator.GenericVisit | vyper/ast/annotation.py:24-31 | Stamps the node with the source text and the current counter, advances the counter by one, then visits the children in order. The counter ends up advanced by exactly the subtree's node count, and the result is `Decorated` of the node at the old counter. |
| Annotating.Annotator.VisitClassDef | vyper/ast/annotation.py:33-39 | A class definition gets the generic visit and then `class_types.get(name)`. The counter is advanced by the subtree's size, and the result is `Annotated` at the old counter. |
| Annotating.Annotator.Visit | vyper/ast/annotation.py:24-39 | Dispatch on the node kind. The result is `Annotated(t, old counter)`, and the counter is advanced by the node count of `t`. |
| Annotating.Annotated | vyper/ast/annotation.py:24-39 | The tree the annotating walk returns when the counter holds `next` on entry. Its root is stamped with `next` and the source text, a class definition at the root holds `Get(ct, name)`, and the root keeps its number of children. The lemmas below state the rest. |
| Annotating.AnnotatedRoot | vyper/ast/annotation.py:27-28 | The root of an annotation started at counter `next` carries id `next` and the source text. Its child slots hold the annotated children. |
| Annotating.AnnotatedStamps | vyper/ast/annotation.py:27-31 | Annotating from `next` stamps the nodes in pre-order with exactly the ids `next`, `next+1`, ..., `next+Size(t)-1`, all with the same source text. From 0 these are 0..n-1 for an n-node tree, so the ids are contiguous. |
| Annotating.AnnotatedKidsStamps | vyper/ast/annotation.py:31 | The children visited one after another get consecutive id ranges: the first k subtrees hold the ids from `next+1` on, without gaps. |
| Annotating.AnnotatedIdsOrdered | vyper/ast/annotation.py:27-31 | After annotation the ids rise strictly in pre-order. They are pairwise distinct, and every node's id is below the ids of all its descendants. |
| Annotating.AnnotatedShape | vyper/ast/annotation.py:31 | Annotation never changes the tree's shape. Erasing stamps and class types from the annotated tree gives the erased input tree back. |
| Annotating.AnnotatedClassTypes | vyper/ast/annotation.py:33-39 | After annotation every class definition, at any depth, holds `Get(ct, name)`: the mapped class type, or `None` when its name is not in the map. |
| AstNodes.AscendingDistinct | vyper/ast/annotation.py:28-29 | Ids that rise along a sequence of stamps are pairwise distinct. |
| AstNodes.AscendingParentFirst | vyper/ast/annotation.py:27-31 | Ids that rise in pre-order put every parent before all of its descendants, at every node of the tree. |
| UnarySubRewrite.RewriteNegation | vyper/ast/annotation.py:45-51 | Unary minus over a number becomes that number with value `0 - n`. Its id, source, line and end position are kept, and its start column is taken from the unary node. Any other node comes back unchanged. The rewrite never changes the integer the expression stands for. |
| UnarySubRewrite.ChildrenFolded | vyper/ast/annotation.py:44 | The generic visit of the folding pass, which `visit_UnaryOp` runs first and every other node gets: the node keeps its stamp, its kind and its number of children, and every one of its children is already fully folded, with no unary minus over a number left anywhere below it, before the test at line 45 looks at the node. |
| UnarySubRewrite.FoldedChildAt | vyper/ast/annotation.py:44 | Each child slot of `ChildrenFolded(t)` holds the folded child of `t` from the same slot. |
| UnarySubRewrite.Fold | vyper/ast/annotation.py:43-51 | The bottom-up pass leaves no unary minus applied directly to a number anywhere in the tree. |
| UnarySubRewrite.FoldVariant | vyper/ast/annotation.py:43-51 | Folding changes a node's kind only by turning a unary node into a number. Any other node keeps its kind and its stamp, and a node without children comes out exactly as it went in. |
| UnarySubRewrite.ChildrenFoldedUnary | vyper/ast/annotation.py:44 | Before the rewrite at a unary node, its operator and its operand have already been folded. |
| UnarySubRewrite.FoldPreservesValue | vyper/ast/annotation.py:45-49 | Folding never changes the integer an expression built from number literals and unary `-`, `+`, `~` stands for. |
| UnarySubRewrite.FoldNegationFree | vyper/ast/annotation.py:43-51 | A tree with no unary minus over a number is left exactly as it is. Only that one shape is rewritten. |
| UnarySubRewrite.FoldIdempotent | vyper/ast/annotation.py:43-51 | Folding a folded tree changes nothing. |
| UnarySubRewrite.FoldWellFormed | vyper/ast/annotation.py:45-49 | Folding a well-formed tree gives a well-formed tree: a unary node keeps an operator and an operand, and a rewritten node is a literal without children. |
| UnarySubRewrite.FoldStamps | vyper/ast/annotation.py:44-49 | Folding a tree numbered `lo`, `lo+1`, ... in pre-order only removes nodes. The result's ids still rise strictly in pre-order, all lie in `lo .. lo+Size(t)-1` and all carry the same source text. The ids are then distinct, but no longer contiguous. |
| UnarySubRewrite.FoldKidsStamps | vyper/ast/annotation.py:44 | The same holds for the first k children once each of them is folded. |
| Annotation.RootAfterFold | vyper/ast/annotation.py:74 | What the caller's root reference shows after the folding pass. Unless the root is unary minus over a number once its children are folded, it is the folded tree. Otherwise it stays the unary node, with its stamp and minus sign, whose operand is the folded literal. |
| Annotation.FoldKeepsClassTypes | vyper/ast/annotation.py:37 | If every class definition of a tree holds `Get(ct, name)` (`ClassTypesResolved`), the same still holds after folding. |
| Annotation.RootAfterFoldKeeps | vyper/ast/annotation.py:73-74 | For any root, including one that line 74 keeps over its negated literal, the root the caller holds after folding a tree numbered from 0 keeps the root's stamp; its stamps still rise in pre-order, stay below the original node count and carry one source text; and class types stay resolved. |
| Annotation.NegatedRootKeeps | vyper/ast/annotation.py:74 | The kept unary root over its negated literal has the stamps of the root with its children folded, so they still rise in pre-order within the original range; its class types stay resolved. |
| Annotation.AnnotatePythonAst | vyper/ast/annotation.py:54-74 | Annotation with a fresh annotator, then folding. For every root the result has: the root stamped 0; every node stamped with the given source text and an id below the input's node count; ids rising in pre-order, hence distinct, with parents before descendants; and class types resolved by name. No foldable negation is left unless the root itself is one once its children are folded, the case line 74 keeps. |
| Scenarios.NameIds | tests/parser/ast_utils/test_ast_dict.py:67-76 | A name takes the current id and its context node the next one. |
| Scenarios.DeclarationIds | tests/parser/ast_utils/test_ast_dict.py:48-78 | An annotated declaration `target: annotation` takes `next`. Its target takes `next+1`, the target's context `next+2`, the annotation `next+3` and its context `next+4`. |
| Scenarios.FieldDeclarationIds | tests/parser/ast_utils/test_ast_dict.py:43-78 | For `a: int128` the module is 0, the declaration 1, the target 2 (its context 3) and the annotation 4, as the test expects at lines 56, 64 and 74. |
| Scenarios.NegatedLiteralIds | vyper/ast/annotation.py:45-49 | `-<literal>` annotated from `next` folds to the negated literal with id `next+2`. The ids `next` and `next+1` of the unary node and its minus sign disappear. |
| Scenarios.NegativeAssignmentFolds | tests/parser/ast_utils/test_ast_dict.py:86 | After annotation and folding, the value of `b: int128 = -22` is the literal -22. It starts at the minus sign's column and keeps the literal's id `next+7`, so the folded tree's ids have a gap. |
| Scenarios.DoubleNegationFolds | vyper/ast/annotation.py:44-49 | Folding is bottom-up: `-(-5)` becomes the literal 5. It keeps the literal's id and end position and takes the outer minus sign's start column. |
| Scenarios.NegatedRootKeepsMinus | vyper/ast/annotation.py:74 | A root `-5` is not replaced. The caller keeps the unary node over the literal `-5`, which stands for 5. |

## Left out

- The dictionary codec (`ast_to_dict`, `dict_to_ast`) and its round trip: vyper/ast/utils.py is not part of this model.
- The `src` summary string and the line and column values: the parser and vyper/ast/utils.py produce them, not this file. The model carries the parser's positions unchanged, and only the folding pass writes one of them.
- The reflective field walk of Python's `ast.NodeTransformer`: each node lists its child nodes explicitly, in field order. The annotating visitors always return the node they were given, and the folding visitor returns a node, so list removal and list splicing (a visit returning `None` or a list) never arise here and are not modelled.
- Sharing of context and operator objects: CPython's parser may reuse one `Load`, `Store` or operator object across the tree, and then later stamps overwrite earlier ones on the shared object. The model treats the input as a true tree, in which every node is its own object.
- Scalar fields of node kinds other than the ones named in `AstNodes` (for example `simple` on an annotated assignment): `Other` keeps only a tag, an optional span and the child nodes.
- Float, decimal, string and byte literals: `Num.n` is an integer, so negating a decimal literal such as `3.31337` is not modelled.
- Identity and in-place update: the model rebuilds values. It does not show that the caller's tree object itself is changed, except for the root case that `RootAfterFold` captures.

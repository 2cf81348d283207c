/** The parsed document tree of a Slarti model, held as an arena of nodes.
    A node is addressed by its index in the arena; the root (index 0) is the
    Model.  Parents always have smaller ids than their children, so every walk
    up the `$container` chain terminates. */
module SlartiAst {

  datatype Option<+T> = None | Some(value: T)

  /** The node kinds of the grammar (the `$type` of an AST node). */
  datatype Kind =
    | Model | Language | Namespace | Token | Term | Principle | Relation
    | Apply | Require | Specification | Instance | Binding | Metadata | Use

  type NodeId = nat

  /** One AST node.  Child lists are grouped by the grammar field that holds
      them; a reference appears only as its reference text.  `required` holds
      the reference text of each `require` of a principle, `principleRef` the
      reference text of the principle an `apply` names. */
  datatype Node = Node(
    kind: Kind,
    name: Option<string>,
    parent: Option<NodeId>,
    elements: seq<NodeId>,
    tokens: seq<NodeId>,
    principles: seq<NodeId>,
    relations: seq<NodeId>,
    terms: seq<NodeId>,
    applies: seq<NodeId>,
    instances: seq<NodeId>,
    required: seq<string>,
    principleRef: string)

  type Tree = seq<Node>

  /** The kinds whose generated interface carries a `name: string` property. */
  predicate IsNamedKind(k: Kind) {
    k in {Language, Namespace, Token, Term, Principle, Relation, Specification, Instance}
  }

  /** The kinds that belong to the generated `Container` union. */
  predicate IsContainerKind(k: Kind) {
    k in {Model, Language, Namespace, Token, Principle, Relation, Apply, Specification, Instance}
  }

  /** Langium's `isNamed`: the node has a string `name`. */
  predicate IsNamed(t: Tree, id: NodeId)
    requires id < |t|
  {
    t[id].name.Some?
  }

  /** The generated `isContainer` guard. */
  predicate IsContainer(t: Tree, id: NodeId)
    requires id < |t|
  {
    IsContainerKind(t[id].kind)
  }

  /** The `name` property of a named node ("" for an unnamed one, which the
      scope computation never asks for). */
  function NameOf(n: Node): string {
    match n.name
    case Some(s) => s
    case None => ""
  }

  /** Every id in `ids` is a child of node `i`: it lies after `i` in the
      arena and its `$container` is `i`. */
  predicate ChildrenOf(t: Tree, i: NodeId, ids: seq<NodeId>) {
    forall j | 0 <= j < |ids| :: i < ids[j] < |t| && t[ids[j]].parent == Some(i)
  }

  /** Every id in `ids` is a node of kind `k`. */
  predicate AllOfKind(t: Tree, ids: seq<NodeId>, k: Kind) {
    forall j | 0 <= j < |ids| :: ids[j] < |t| && t[ids[j]].kind == k
  }

  predicate NodeWellFormed(t: Tree, i: NodeId)
    requires i < |t|
  {
    var n := t[i];
    && (i == 0 <==> n.parent.None?)
    && (n.parent.Some? ==> n.parent.value < i)
    && (i == 0 <==> n.kind == Model)
    && (n.name.Some? <==> IsNamedKind(n.kind))
    && ChildrenOf(t, i, n.elements)
    && ChildrenOf(t, i, n.tokens) && AllOfKind(t, n.tokens, Token)
    && ChildrenOf(t, i, n.principles) && AllOfKind(t, n.principles, Principle)
    && ChildrenOf(t, i, n.relations) && AllOfKind(t, n.relations, Relation)
    && ChildrenOf(t, i, n.terms) && AllOfKind(t, n.terms, Term)
    && ChildrenOf(t, i, n.applies) && AllOfKind(t, n.applies, Apply)
    && ChildrenOf(t, i, n.instances) && AllOfKind(t, n.instances, Instance)
  }

  /** A parse result the scope computation accepts: a non-empty arena rooted
      at the Model, every node consistent with its parent and its fields. */
  predicate WellFormed(t: Tree) {
    |t| > 0 && forall i | 0 <= i < |t| :: NodeWellFormed(t, i)
  }
}

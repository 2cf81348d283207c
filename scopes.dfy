/** The scope computation of the Slarti language: for every container of a
    parsed document, the ordered list of descriptions visible directly in it,
    including the re-qualified lists of nested containers, the aliases that
    `require` introduces and the relations that `apply` splices in. */
module ScopeComputation {
  import opened SlartiAst
  import opened Descriptions
  import opened QualifiedNames

  // ---------------------------------------------------------------------
  // Rule tables
  // ---------------------------------------------------------------------

  /** `elements.filter(isNamed)`. */
  function FilterNamed(t: Tree, ids: seq<NodeId>): (r: seq<NodeId>)
    requires forall j | 0 <= j < |ids| :: ids[j] < |t|
    ensures forall j | 0 <= j < |r| :: r[j] in ids && IsNamed(t, r[j])
    ensures forall j | 0 <= j < |ids| :: IsNamed(t, ids[j]) ==> ids[j] in r
  {
    if |ids| == 0 then []
    else
      var rest := FilterNamed(t, ids[1..]);
      assert forall j | 1 <= j < |ids| :: ids[j] == ids[1..][j - 1];
      if IsNamed(t, ids[0]) then [ids[0]] + rest else rest
  }

  /** `elements.filter(isContainer)`. */
  function FilterContainers(t: Tree, ids: seq<NodeId>): (r: seq<NodeId>)
    requires forall j | 0 <= j < |ids| :: ids[j] < |t|
    ensures forall j | 0 <= j < |r| :: r[j] in ids && IsContainer(t, r[j])
    ensures forall j | 0 <= j < |ids| :: IsContainer(t, ids[j]) ==> ids[j] in r
  {
    if |ids| == 0 then []
    else
      var rest := FilterContainers(t, ids[1..]);
      assert forall j | 1 <= j < |ids| :: ids[j] == ids[1..][j - 1];
      if IsContainer(t, ids[0]) then [ids[0]] + rest else rest
  }

  lemma ChildrenOfConcat(t: Tree, i: NodeId, a: seq<NodeId>, b: seq<NodeId>)
    requires ChildrenOf(t, i, a) && ChildrenOf(t, i, b)
    ensures ChildrenOf(t, i, a + b)
  {
    forall j | 0 <= j < |a + b| ensures i < (a + b)[j] < |t| && t[(a + b)[j]].parent == Some(i) {
      if j >= |a| {
        assert (a + b)[j] == b[j - |a|];
      }
    }
  }

  /** `getNamedElements`: the children of a container that get a bare-name
      description in its scope.  They are named children of `c`, and every
      kind outside the table has none. */
  function NamedElements(t: Tree, c: NodeId): (r: seq<NodeId>)
    requires WellFormed(t) && c < |t|
    ensures ChildrenOf(t, c, r)
    ensures forall j | 0 <= j < |r| :: IsNamed(t, r[j])
    ensures t[c].kind !in {Language, Specification, Principle, Token, Model} ==> r == []
  {
    var n := t[c];
    assert NodeWellFormed(t, c);
    match n.kind
    case Language =>
      ChildrenOfConcat(t, c, n.tokens, n.principles);
      KindsConcat(t, n.tokens, Token, n.principles, Principle);
      NamedByKind(t, n.tokens + n.principles);
      n.tokens + n.principles
    case Specification =>
      NamedByKind(t, n.instances);
      n.instances
    case Principle =>
      ChildrenOfConcat(t, c, n.relations, n.terms);
      KindsConcat(t, n.relations, Relation, n.terms, Term);
      NamedByKind(t, n.relations + n.terms);
      n.relations + n.terms
    case Token =>
      NamedByKind(t, n.terms);
      n.terms
    case Model =>
      ChildrenOfSubset(t, c, FilterNamed(t, n.elements), n.elements);
      FilterNamed(t, n.elements)
    case _ => []
  }

  /** `getContainerElements`: the children of a container whose own scopes
      are computed and re-qualified into its scope. */
  function ContainerElements(t: Tree, c: NodeId): (r: seq<NodeId>)
    requires WellFormed(t) && c < |t|
    ensures ChildrenOf(t, c, r)
    ensures forall j | 0 <= j < |r| :: IsContainer(t, r[j])
    ensures t[c].kind !in {Language, Specification, Principle, Model} ==> r == []
  {
    var n := t[c];
    assert NodeWellFormed(t, c);
    match n.kind
    case Principle =>
      ChildrenOfConcat(t, c, n.relations, n.applies);
      KindsConcat(t, n.relations, Relation, n.applies, Apply);
      n.relations + n.applies
    case Language =>
      ChildrenOfConcat(t, c, n.tokens, n.principles);
      KindsConcat(t, n.tokens, Token, n.principles, Principle);
      n.tokens + n.principles
    case Specification => n.instances
    case Model =>
      ChildrenOfSubset(t, c, FilterContainers(t, n.elements), n.elements);
      FilterContainers(t, n.elements)
    case _ => []
  }

  /** Children drawn from a list of children are children. */
  lemma ChildrenOfSubset(t: Tree, c: NodeId, sub: seq<NodeId>, all: seq<NodeId>)
    requires ChildrenOf(t, c, all) && forall j | 0 <= j < |sub| :: sub[j] in all
    ensures ChildrenOf(t, c, sub)
  {
    forall j | 0 <= j < |sub| ensures c < sub[j] < |t| && t[sub[j]].parent == Some(c) {
      var k :| 0 <= k < |all| && all[k] == sub[j];
    }
  }

  /** Two lists of nodes of one kind each, joined. */
  lemma KindsConcat(t: Tree, a: seq<NodeId>, ka: Kind, b: seq<NodeId>, kb: Kind)
    requires AllOfKind(t, a, ka) && AllOfKind(t, b, kb)
    ensures forall j | 0 <= j < |a + b| :: (a + b)[j] < |t| && t[(a + b)[j]].kind in {ka, kb}
  {
    forall j | 0 <= j < |a + b| ensures (a + b)[j] < |t| && t[(a + b)[j]].kind in {ka, kb} {
      if j >= |a| {
        assert (a + b)[j] == b[j - |a|];
      }
    }
  }

  /** In a well-formed tree, a node of a named kind has a name. */
  lemma NamedByKind(t: Tree, ids: seq<NodeId>)
    requires WellFormed(t)
    requires forall j | 0 <= j < |ids| :: ids[j] < |t| && IsNamedKind(t[ids[j]].kind)
    ensures forall j | 0 <= j < |ids| :: IsNamed(t, ids[j])
  {
    forall j | 0 <= j < |ids| ensures IsNamed(t, ids[j]) {
      assert NodeWellFormed(t, ids[j]);
    }
  }

  // ---------------------------------------------------------------------
  // Building descriptions
  // ---------------------------------------------------------------------

  /** One description per named element, each under its own bare name. */
  function Bare(t: Tree, ids: seq<NodeId>): (r: seq<Description>)
    requires forall j | 0 <= j < |ids| :: ids[j] < |t|
    ensures |r| == |ids|
    ensures forall j | 0 <= j < |ids| :: r[j] == Describe(t, ids[j], NameOf(t[ids[j]]))
  {
    if |ids| == 0 then []
    else Bare(t, ids[..|ids| - 1]) + [Describe(t, ids[|ids| - 1], NameOf(t[ids[|ids| - 1]]))]
  }

  /** `createQualifiedDescription(container, description)`: the same node,
      renamed to the qualified name of the description's name against the
      container. */
  function Qualify(t: Tree, container: NodeId, d: Description): Description
    requires WellFormed(t) && container < |t| && d.node < |t|
  {
    Describe(t, d.node, QualifiedName(t, container, d.name))
  }

  /** The nested list of `container`, each entry re-qualified against it. */
  function QualifyAll(t: Tree, container: NodeId, ds: seq<Description>): (r: seq<Description>)
    requires WellFormed(t) && container < |t| && NodesWithin(t, ds, -1)
    ensures |r| == |ds|
    ensures forall j | 0 <= j < |ds| :: r[j] == Qualify(t, container, ds[j])
    ensures forall lo: int | NodesWithin(t, ds, lo) :: NodesWithin(t, r, lo)
  {
    if |ds| == 0 then []
    else QualifyAll(t, container, ds[..|ds| - 1]) + [Qualify(t, container, ds[|ds| - 1])]
  }

  /** The descriptions of type `Relation` of a list, in order
      (`.filter(r => r.type === 'Relation')`). */
  function RelationsOf(ds: seq<Description>): (r: seq<Description>)
    ensures forall j | 0 <= j < |r| :: r[j].kind == Relation && r[j] in ds
    ensures forall j | 0 <= j < |ds| :: ds[j].kind == Relation ==> ds[j] in r
  {
    if |ds| == 0 then []
    else
      var rest := RelationsOf(ds[1..]);
      assert forall j | 1 <= j < |ds| :: ds[j] == ds[1..][j - 1];
      if ds[0].kind == Relation then [ds[0]] + rest else rest
  }

  /** One round of the `require` loop: when `name` is found in
      `frame + acc`, the alias `<root>.<name>` for the node found is appended
      to `acc`; otherwise `acc` is left as it is. */
  function AliasRound(t: Tree, frame: seq<Description>, acc: seq<Description>, root: string,
                      name: string, ghost lo: int): (r: seq<Description>)
    requires NodesWithin(t, frame, lo) && NodesWithin(t, acc, lo)
    ensures NodesWithin(t, r, lo)
    ensures |acc| <= |r| <= |acc| + 1 && r[..|acc|] == acc
  {
    NodesWithinConcat(t, frame, acc, lo);
    match Lookup(frame + acc, name)
    case None => acc
    case Some(n) =>
      LookupWithin(t, frame + acc, name, lo);
      acc + [Describe(t, n, root + "." + name)]
  }

  /** The `require` aliases of a principle named `root`, appended to `acc`
      in the order of `required`: for each required name that is found in
      `frame + acc` (as `acc` stands at that moment) a description named
      `root.<name>` pointing at the node found; a name not found is skipped. */
  function Aliases(t: Tree, frame: seq<Description>, acc: seq<Description>, root: string,
                   required: seq<string>, ghost lo: int): (r: seq<Description>)
    requires NodesWithin(t, frame, lo) && NodesWithin(t, acc, lo)
    ensures NodesWithin(t, r, lo)
    ensures |acc| <= |r| <= |acc| + |required| && r[..|acc|] == acc
    decreases |required|
  {
    if |required| == 0 then acc
    else
      var next := AliasRound(t, frame, acc, root, required[0], lo);
      var r := Aliases(t, frame, next, root, required[1..], lo);
      assert r[..|next|][..|acc|] == acc;
      r
  }

  /** The exports of a document: each named top-level element, in order,
      under its name qualified against itself. */
  function Exports(t: Tree): (r: seq<Description>)
    requires WellFormed(t)
    ensures |r| == |NamedElements(t, 0)|
    ensures forall i | 0 <= i < |r| :: r[i].node == NamedElements(t, 0)[i]
  {
    var named := NamedElements(t, 0);
    seq(|named|, i requires 0 <= i < |named| =>
      Describe(t, named[i], QualifiedName(t, named[i], NameOf(t[named[i]]))))
  }

  // ---------------------------------------------------------------------
  // The scope table and its history
  // ---------------------------------------------------------------------

  /** One `scopes.addAll(key, values)`. */
  datatype Append = Append(key: NodeId, values: seq<Description>)

  /** What one call of `processContainer` returns, with every append it made
      to the shared scope table, in order. */
  datatype Outcome = Outcome(descs: seq<Description>, log: seq<Append>)

  type Scopes = map<NodeId, seq<Description>>

  function Get(m: Scopes, key: NodeId): seq<Description> {
    if key in m then m[key] else []
  }

  /** The multimap after `addAll(a.key, a.values)`. */
  function Appended(m: Scopes, a: Append): (r: Scopes)
    ensures a.key in r && r[a.key] == Get(m, a.key) + a.values
    ensures forall k | k in m && k != a.key :: k in r && r[k] == m[k]
    ensures r.Keys == m.Keys + {a.key}
  {
    m[a.key := Get(m, a.key) + a.values]
  }

  /** The multimap after a sequence of appends. */
  function Replay(m: Scopes, log: seq<Append>): Scopes
    decreases |log|
  {
    if |log| == 0 then m else Appended(Replay(m, log[..|log| - 1]), log[|log| - 1])
  }

  /** Replaying two logs one after the other. */
  lemma {:induction false} ReplayConcat(m: Scopes, a: seq<Append>, b: seq<Append>)
    ensures Replay(m, a + b) == Replay(Replay(m, a), b)
    decreases |b|
  {
    if |b| > 0 {
      var b' := b[..|b| - 1];
      assert (a + b)[..|a + b| - 1] == a + b';
      ReplayConcat(m, a, b');
    } else {
      assert a + b == a;
    }
  }

  /** Every key of the log lies in `(lo, |t|)`. */
  predicate KeysAbove(t: Tree, log: seq<Append>, lo: int) {
    forall k | 0 <= k < |log| :: lo < log[k].key < |t|
  }

  // ---------------------------------------------------------------------
  // The recursive pass, as a specification
  // ---------------------------------------------------------------------

  // Termination: every node a frame names lies above the ghost bound `lo`
  // (the container a fresh, empty-frame pass started from).  Nested
  // containers are children, so their ids grow; re-entering the principle an
  // `apply` names starts a fresh pass from that node, whose id is above `lo`.

  /** `processContainer(c, scopes, document, frame)`: the list it returns and
      the appends it makes to `scopes`, the last of which records its list
      under `c` itself. */
  function Process(t: Tree, c: NodeId, frame: seq<Description>, ghost lo: nat): (r: Outcome)
    requires WellFormed(t) && lo <= c < |t| && NodesWithin(t, frame, lo)
    ensures NodesWithin(t, r.descs, lo)
    ensures |r.log| > 0 && r.log[|r.log| - 1] == Append(c, r.descs)
    ensures KeysAbove(t, r.log[..|r.log| - 1], lo)
    decreases |t| - lo, |t| - c, 1, 0
  {
    var spliced := Splice(t, c, frame, lo);
    var named := NamedElements(t, c);
    var nested := ProcessNested(t, c, frame, lo, ContainerElements(t, c),
                                spliced.descs + Bare(t, named), spliced.log);
    var log := nested.log + [Append(c, nested.descs)];
    assert log[..|log| - 1] == nested.log;
    Outcome(nested.descs, log)
  }

  /** The head of `processContainer` for an `apply`: the principle named by
      the apply's reference text is looked up in the frame; when it is found
      and is a container, its scope is computed afresh (empty frame) and its
      `Relation` descriptions are what the apply starts with. */
  function Splice(t: Tree, c: NodeId, frame: seq<Description>, ghost lo: nat): (r: Outcome)
    requires WellFormed(t) && lo <= c < |t| && NodesWithin(t, frame, lo)
    ensures NodesWithin(t, r.descs, lo)
    ensures KeysAbove(t, r.log, lo)
    decreases |t| - lo, |t| - c, 0, 0
  {
    if t[c].kind != Apply then Outcome([], [])
    else
      match Lookup(frame, t[c].principleRef)
      case None => Outcome([], [])
      case Some(n) =>
        if !IsContainer(t, n) then Outcome([], [])
        else
          var p := Process(t, n, [], n);
          LookupWithin(t, frame, t[c].principleRef, lo);
          RelationsWithin(t, p.descs, n, lo);
          Outcome(RelationsOf(p.descs), p.log)
  }

  /** The relations of a list lie wherever the list does. */
  lemma RelationsWithin(t: Tree, ds: seq<Description>, n: int, lo: int)
    requires NodesWithin(t, ds, n) && lo <= n
    ensures NodesWithin(t, RelationsOf(ds), lo)
  {
    var rel := RelationsOf(ds);
    forall j | 0 <= j < |rel| ensures lo < rel[j].node < |t| {
      var k :| 0 <= k < |ds| && ds[k] == rel[j];
    }
  }

  /** One round of the loop of `processContainer` over its container
      elements: the nested list of `e` is computed with the frame extended by
      everything gathered so far (`acc`) and appended re-qualified against
      `e`; a principle's `require` aliases follow.  Returns the extended list
      and the appends made to the scope table. */
  function Nest(t: Tree, e: NodeId, frame: seq<Description>, ghost lo: nat,
                acc: seq<Description>): (r: Outcome)
    requires WellFormed(t) && lo < e < |t|
    requires NodesWithin(t, frame, lo) && NodesWithin(t, acc, lo)
    ensures NodesWithin(t, r.descs, lo) && KeysAbove(t, r.log, lo)
    ensures |acc| <= |r.descs| && r.descs[..|acc|] == acc
    decreases |t| - lo, |t| - e, 2, 0
  {
    NodesWithinConcat(t, frame, acc, lo);
    var nested := Process(t, e, frame + acc, lo);
    var qualified := acc + QualifyAll(t, e, nested.descs);
    NodesWithinConcat(t, acc, QualifyAll(t, e, nested.descs), lo);
    var next := if t[e].kind == Principle
                then Aliases(t, frame, qualified, NameOf(t[e]), t[e].required, lo)
                else qualified;
    PrefixOfPrefix(acc, qualified, next);
    LastKeyAbove(t, nested.log, lo, e);
    Outcome(next, nested.log)
  }

  lemma PrefixOfPrefix<T>(a: seq<T>, b: seq<T>, c: seq<T>)
    requires |a| <= |b| && b[..|a|] == a && |b| <= |c| && c[..|b|] == b
    ensures c[..|a|] == a
  {
    assert c[..|b|][..|a|] == c[..|a|];
  }

  lemma LastKeyAbove(t: Tree, log: seq<Append>, lo: int, key: NodeId)
    requires |log| > 0 && KeysAbove(t, log[..|log| - 1], lo)
    requires log[|log| - 1].key == key && lo < key < |t|
    ensures KeysAbove(t, log, lo)
  {
    forall k | 0 <= k < |log| - 1 ensures lo < log[k].key < |t| {
      assert log[k] == log[..|log| - 1][k];
    }
  }

  lemma KeysAboveConcat(t: Tree, a: seq<Append>, b: seq<Append>, lo: int)
    requires KeysAbove(t, a, lo) && KeysAbove(t, b, lo)
    ensures KeysAbove(t, a + b, lo)
  {
    forall k | 0 <= k < |a + b| ensures lo < (a + b)[k].key < |t| {
      if k >= |a| { assert (a + b)[k] == b[k - |a|]; }
    }
  }

  /** The loop of `processContainer` over the container elements, one `Nest`
      round per element, in order. */
  function ProcessNested(t: Tree, c: NodeId, frame: seq<Description>, ghost lo: nat,
                         elems: seq<NodeId>, acc: seq<Description>, log: seq<Append>): (r: Outcome)
    requires WellFormed(t) && lo <= c < |t|
    requires NodesWithin(t, frame, lo) && NodesWithin(t, acc, lo) && KeysAbove(t, log, lo)
    requires forall j | 0 <= j < |elems| :: c < elems[j] < |t|
    ensures NodesWithin(t, r.descs, lo) && KeysAbove(t, r.log, lo)
    ensures |acc| <= |r.descs| && r.descs[..|acc|] == acc
    ensures |log| <= |r.log| && r.log[..|log|] == log
    decreases |t| - lo, |t| - c, 0, |elems|
  {
    if |elems| == 0 then Outcome(acc, log)
    else
      var step := Nest(t, elems[0], frame, lo, acc);
      KeysAboveConcat(t, log, step.log, lo);
      var r := ProcessNested(t, c, frame, lo, elems[1..], step.descs, log + step.log);
      assert r.descs[..|step.descs|][..|acc|] == acc;
      assert r.log[..|log + step.log|][..|log|] == log;
      r
  }
}

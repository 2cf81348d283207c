/** `SlartiScopeComputation`: the imperative pass.  Each method follows the
    loops of the TypeScript class and is proved equal to the specification
    functions of `ScopeComputation`. */
module SlartiScopeComputation {
  import opened SlartiAst
  import opened Descriptions
  import opened QualifiedNames
  import opened ScopeComputation

  /** The `MultiMap<AstNode, AstNodeDescription>` the pass fills: a list of
      descriptions per container, only ever appended to. */
  class ScopeTable {
    var entries: Scopes

    constructor ()
      ensures entries == map[]
    {
      entries := map[];
    }

    /** `addAll(key, values)`. */
    method AddAll(key: NodeId, values: seq<Description>)
      modifies this
      ensures entries == Appended(old(entries), Append(key, values))
    {
      entries := entries[key := Get(entries, key) + values];
    }
  }

  /** `createQualifiedDescription`. */
  method CreateQualifiedDescription(t: Tree, container: NodeId, description: Description)
    returns (qualified: Description)
    requires WellFormed(t) && container < |t| && description.node < |t|
    ensures qualified == Qualify(t, container, description)
    ensures qualified.node == description.node
  {
    var name := GetQualifiedName(t, container, description.name);
    qualified := Describe(t, description.node, name);
  }

  /** `processContainer`: returns the list of `container` and appends, to
      `scopes`, exactly what the specification's log records. */
  method ProcessContainer(t: Tree, container: NodeId, scopes: ScopeTable,
                          frame: seq<Description>, ghost lo: nat)
    returns (localDescriptions: seq<Description>)
    requires WellFormed(t) && lo <= container < |t| && NodesWithin(t, frame, lo)
    modifies scopes
    ensures localDescriptions == Process(t, container, frame, lo).descs
    ensures scopes.entries == Replay(old(scopes.entries), Process(t, container, frame, lo).log)
    decreases |t| - lo, |t| - container, 3
  {
    localDescriptions := SpliceApplied(t, container, scopes, frame, lo);
    ghost var log := Splice(t, container, frame, lo).log;
    localDescriptions := AppendBare(t, localDescriptions, NamedElements(t, container));
    ghost var target := ProcessNested(t, container, frame, lo, ContainerElements(t, container),
                                      localDescriptions, log);
    localDescriptions := ProcessElements(t, container, scopes, frame, lo,
                                         ContainerElements(t, container), localDescriptions, log,
                                         old(scopes.entries));
    ReplayConcat(old(scopes.entries), target.log, [Append(container, localDescriptions)]);
    scopes.AddAll(container, localDescriptions);
  }

  /** The first `for` loop of `processContainer`: one bare-name description
      per named element, in order. */
  method AppendBare(t: Tree, acc: seq<Description>, named: seq<NodeId>)
    returns (localDescriptions: seq<Description>)
    requires forall j | 0 <= j < |named| :: named[j] < |t|
    ensures localDescriptions == acc + Bare(t, named)
  {
    localDescriptions := acc;
    for i := 0 to |named|
      invariant localDescriptions == acc + Bare(t, named[..i])
    {
      assert named[..i + 1][..i] == named[..i];
      localDescriptions := localDescriptions + [Describe(t, named[i], NameOf(t[named[i]]))];
    }
    assert named[..|named|] == named;
  }

  /** The second `for` loop of `processContainer`, over the container
      elements `elems`, from the list `acc` gathered so far; `log` is the
      history of the table so far. */
  method ProcessElements(t: Tree, container: NodeId, scopes: ScopeTable, frame: seq<Description>,
                         ghost lo: nat, elems: seq<NodeId>, acc: seq<Description>,
                         ghost log: seq<Append>, ghost start: Scopes)
    returns (localDescriptions: seq<Description>)
    requires WellFormed(t) && lo <= container < |t|
    requires NodesWithin(t, frame, lo) && NodesWithin(t, acc, lo) && KeysAbove(t, log, lo)
    requires forall j | 0 <= j < |elems| :: container < elems[j] < |t|
    requires scopes.entries == Replay(start, log)
    modifies scopes
    ensures localDescriptions == ProcessNested(t, container, frame, lo, elems, acc, log).descs
    ensures scopes.entries == Replay(start, ProcessNested(t, container, frame, lo, elems, acc, log).log)
    decreases |t| - lo, |t| - container, 2
  {
    ghost var target := ProcessNested(t, container, frame, lo, elems, acc, log);
    ghost var history := log;
    localDescriptions := acc;
    for i := 0 to |elems|
      invariant NodesWithin(t, localDescriptions, lo) && KeysAbove(t, history, lo)
      invariant ProcessNested(t, container, frame, lo, elems[i..], localDescriptions, history) == target
      invariant scopes.entries == Replay(start, history)
    {
      ghost var step := Nest(t, elems[i], frame, lo, localDescriptions);
      localDescriptions := NestElement(t, elems[i], scopes, frame, lo, localDescriptions);
      ReplayConcat(start, history, step.log);
      KeysAboveConcat(t, history, step.log, lo);
      history := history + step.log;
      assert elems[i..][1..] == elems[i + 1..];
    }
    assert elems[|elems|..] == [];
  }

  /** The `isApply` head of `processContainer`: look the applied principle
      up in the frame and, when it is a container, process it afresh and keep
      its `Relation` descriptions. */
  method SpliceApplied(t: Tree, container: NodeId, scopes: ScopeTable,
                       frame: seq<Description>, ghost lo: nat)
    returns (localDescriptions: seq<Description>)
    requires WellFormed(t) && lo <= container < |t| && NodesWithin(t, frame, lo)
    modifies scopes
    ensures localDescriptions == Splice(t, container, frame, lo).descs
    ensures scopes.entries == Replay(old(scopes.entries), Splice(t, container, frame, lo).log)
    decreases |t| - lo, |t| - container, 2
  {
    localDescriptions := [];
    if t[container].kind == Apply {
      var name := t[container].principleRef;
      var principle := LookupNode(frame, name);
      if principle.Some? && IsContainer(t, principle.value) {
        var n := principle.value;
        LookupWithin(t, frame, name, lo);
        assert Splice(t, container, frame, lo)
               == Outcome(RelationsOf(Process(t, n, [], n).descs), Process(t, n, [], n).log);
        var all := ProcessContainer(t, n, scopes, [], n);
        localDescriptions := AppendRelations(localDescriptions, all);
      }
    }
  }

  /** `relationDescriptions` and the loop pushing them: the `Relation`
      descriptions of `all`, in order, after `acc`. */
  method AppendRelations(acc: seq<Description>, all: seq<Description>)
    returns (localDescriptions: seq<Description>)
    ensures localDescriptions == acc + RelationsOf(all)
  {
    var relationDescriptions := RelationsOf(all);
    localDescriptions := acc;
    for i := 0 to |relationDescriptions|
      invariant localDescriptions == acc + relationDescriptions[..i]
    {
      assert relationDescriptions[..i + 1] == relationDescriptions[..i] + [relationDescriptions[i]];
      localDescriptions := localDescriptions + [relationDescriptions[i]];
    }
    assert relationDescriptions[..|relationDescriptions|] == relationDescriptions;
  }

  /** One round of the loop over the container elements: the nested list of
      `element`, re-qualified, then a principle's `require` aliases. */
  method NestElement(t: Tree, element: NodeId, scopes: ScopeTable, frame: seq<Description>,
                     ghost lo: nat, acc: seq<Description>)
    returns (localDescriptions: seq<Description>)
    requires WellFormed(t) && lo < element < |t|
    requires NodesWithin(t, frame, lo) && NodesWithin(t, acc, lo)
    modifies scopes
    ensures localDescriptions == Nest(t, element, frame, lo, acc).descs
    ensures scopes.entries == Replay(old(scopes.entries), Nest(t, element, frame, lo, acc).log)
    decreases |t| - lo, |t| - element, 4
  {
    NodesWithinConcat(t, frame, acc, lo);
    ghost var nested := Process(t, element, frame + acc, lo);
    assert Nest(t, element, frame, lo, acc).log == nested.log;
    var nestedDescriptions := ProcessContainer(t, element, scopes, frame + acc, lo);
    ghost var entries := scopes.entries;
    localDescriptions := AppendQualified(t, element, acc, nestedDescriptions);
    NodesWithinConcat(t, acc, QualifyAll(t, element, nestedDescriptions), lo);
    if t[element].kind == Principle {
      localDescriptions := AddRequireAliases(t, frame, localDescriptions, NameOf(t[element]),
                                             t[element].required, lo);
    }
    assert scopes.entries == entries;
  }

  /** The inner `for` loop of `processContainer`: each nested description
      re-qualified against `element`, in order. */
  method AppendQualified(t: Tree, element: NodeId, acc: seq<Description>,
                         nested: seq<Description>)
    returns (localDescriptions: seq<Description>)
    requires WellFormed(t) && element < |t| && NodesWithin(t, nested, -1)
    ensures localDescriptions == acc + QualifyAll(t, element, nested)
  {
    localDescriptions := acc;
    for j := 0 to |nested|
      invariant localDescriptions == acc + QualifyAll(t, element, nested[..j])
    {
      assert nested[..j + 1][..j] == nested[..j];
      var qualified := CreateQualifiedDescription(t, element, nested[j]);
      localDescriptions := localDescriptions + [qualified];
    }
    assert nested[..|nested|] == nested;
  }

  /** The `requires.forEach` of `processContainer`: for each required name,
      the alias `<root>.<name>` for the node `lookupNode(frame + local, name)`
      finds, skipped when nothing is found. */
  method AddRequireAliases(t: Tree, frame: seq<Description>, acc: seq<Description>,
                           root: string, required: seq<string>, ghost lo: int)
    returns (localDescriptions: seq<Description>)
    requires NodesWithin(t, frame, lo) && NodesWithin(t, acc, lo)
    ensures localDescriptions == Aliases(t, frame, acc, root, required, lo)
  {
    localDescriptions := acc;
    for k := 0 to |required|
      invariant NodesWithin(t, localDescriptions, lo)
      invariant Aliases(t, frame, localDescriptions, root, required[k..], lo)
                == Aliases(t, frame, acc, root, required, lo)
    {
      assert required[k..][1..] == required[k + 1..];
      localDescriptions := AddRequireAlias(t, frame, localDescriptions, root, required[k], lo);
    }
    assert required[|required|..] == [];
  }

  /** The body of the `requires.forEach`: look `name` up in the frame
      followed by the list so far and, when it is found, append the alias
      `<root>.<name>` for it. */
  method AddRequireAlias(t: Tree, frame: seq<Description>, acc: seq<Description>,
                         root: string, name: string, ghost lo: int)
    returns (localDescriptions: seq<Description>)
    requires NodesWithin(t, frame, lo) && NodesWithin(t, acc, lo)
    ensures localDescriptions == AliasRound(t, frame, acc, root, name, lo)
  {
    localDescriptions := acc;
    var path := root + "." + name;
    NodesWithinConcat(t, frame, acc, lo);
    var principle := LookupNode(frame + acc, name);
    if principle.Some? {
      LookupWithin(t, frame + acc, name, lo);
      localDescriptions := acc + [Describe(t, principle.value, path)];
    }
  }

  /** `computeLocalScopes`: a fresh table filled by one pass over the root. */
  method ComputeLocalScopes(t: Tree) returns (scopes: ScopeTable)
    requires WellFormed(t)
    ensures fresh(scopes)
    ensures scopes.entries == Replay(map[], Process(t, 0, [], 0).log)
  {
    scopes := new ScopeTable();
    var _ := ProcessContainer(t, 0, scopes, [], 0);
  }

  /** `computeExports`: the loop over the named top-level elements. */
  method ComputeExports(t: Tree) returns (exportedDescriptions: seq<Description>)
    requires WellFormed(t)
    ensures exportedDescriptions == Exports(t)
  {
    var named := NamedElements(t, 0);
    exportedDescriptions := [];
    for i := 0 to |named|
      invariant exportedDescriptions == Exports(t)[..i]
    {
      var childNode := named[i];
      assert IsNamed(t, childNode);
      var fullyQualifiedName := GetQualifiedName(t, childNode, NameOf(t[childNode]));
      exportedDescriptions := exportedDescriptions + [Describe(t, childNode, fullyQualifiedName)];
      assert Exports(t)[..i + 1] == Exports(t)[..i] + [Exports(t)[i]];
    }
    assert Exports(t)[..|named|] == Exports(t);
  }
}

/** The document of the "requiring a principle" linking scenario, built by
    hand, and what the scope computation makes visible in it:

      token T
      principle P1 { relation test[T,T] }
      principle P2 { require P1 }
*/
module ScopeScenarios {
  import opened SlartiAst
  import opened Descriptions
  import opened QualifiedNames
  import opened ScopeComputation
  import opened ScopeProperties

  /** A node with the given kind, name and parent and no children. */
  function Leaf(kind: Kind, name: Option<string>, parent: Option<NodeId>): (n: Node)
    ensures n.kind == kind && n.name == name && n.parent == parent
  {
    Node(kind, name, parent, [], [], [], [], [], [], [], [], "")
  }

  /** Model 0 holds token T (1), principle P1 (2) with relation test (3) and
      principle P2 (4) requiring P1. */
  function RequiringDocument(): Tree {
    [ Node(Model, None, None, [1, 2, 4], [], [], [], [], [], [], [], ""),
      Leaf(Token, Some("T"), Some(0)),
      Node(Principle, Some("P1"), Some(0), [], [], [], [3], [], [], [], [], ""),
      Leaf(Relation, Some("test"), Some(2)),
      Node(Principle, Some("P2"), Some(0), [], [], [], [], [], [], [], ["P1"], "") ]
  }

  lemma RequiringDocumentWellFormed()
    ensures WellFormed(RequiringDocument())
  {
    var t := RequiringDocument();
    forall i | 0 <= i < |t| ensures NodeWellFormed(t, i) {
      if i == 0 {
        ModelNodeWellFormed();
      } else if i == 2 {
        PrincipleNodeWellFormed();
      } else {
        LeafNodeWellFormed(i);
      }
    }
  }

  lemma ModelNodeWellFormed()
    ensures NodeWellFormed(RequiringDocument(), 0)
  {
    var t := RequiringDocument();
    forall j | 0 <= j < 3 ensures 0 < [1, 2, 4][j] < |t| && t[[1, 2, 4][j]].parent == Some(0) {
      if j == 0 { assert t[1].parent == Some(0); }
      else if j == 1 { assert t[2].parent == Some(0); }
      else { assert t[4].parent == Some(0); }
    }
  }

  lemma PrincipleNodeWellFormed()
    ensures NodeWellFormed(RequiringDocument(), 2)
  {
    var t := RequiringDocument();
    assert ChildrenOf(t, 2, [3]) && AllOfKind(t, [3], Relation);
  }

  lemma LeafNodeWellFormed(i: NodeId)
    requires i == 1 || i == 3 || i == 4
    ensures NodeWellFormed(RequiringDocument(), i)
  {
  }

  /** The shape of the scenario's document, as the lemmas below use it. */
  ghost predicate IsRequiringDocument(t: Tree) {
    && WellFormed(t) && |t| == 5
    && t[0].elements == [1, 2, 4]
    && t[1].kind == Token && t[1].name == Some("T")
    && t[2].kind == Principle && t[2].name == Some("P1") && t[2].relations == [3]
    && t[3].kind == Relation && t[3].name == Some("test")
    && t[4].kind == Principle && t[4].name == Some("P2") && t[4].required == ["P1"]
  }

  lemma RequiringDocumentHasShape()
    ensures IsRequiringDocument(RequiringDocument())
  {
    RequiringDocumentWellFormed();
  }

  /** The Model's list holds the bare names `T`, `P1`, `P2`, the relation
      under `P1.test`, and the alias `P2.P1`, which resolves to principle P1;
      the Model's own scope-table entry is that list. */
  lemma RequiringScenario(t: Tree)
    requires IsRequiringDocument(t)
    ensures |Process(t, 0, [], 0).descs| >= 3
    ensures Process(t, 0, [], 0).descs[..3]
         == [Description(1, "T", Token), Description(2, "P1", Principle), Description(4, "P2", Principle)]
    ensures Description(3, "P1.test", Relation) in Process(t, 0, [], 0).descs
    ensures Description(2, "P2.P1", Principle) in Process(t, 0, [], 0).descs
    ensures Replay(map[], Process(t, 0, [], 0).log)[0] == Process(t, 0, [], 0).descs
  {
    ScenarioBareNames(t);
    ScenarioRelation(t);
    ScenarioAlias(t);
    ModelScopeIsItsList(t);
  }

  /** The head of the Model's list: the bare names of its three named
      elements. */
  lemma ScenarioHead(t: Tree)
    requires IsRequiringDocument(t)
    ensures ListHead(t, 0, [], 0)
         == [Description(1, "T", Token), Description(2, "P1", Principle), Description(4, "P2", Principle)]
  {
    ModelNamedElements(t);
    ScenarioBare(t);
    assert Splice(t, 0, [], 0).descs == [] by {
      assert NodeWellFormed(t, 0);
    }
  }

  lemma ScenarioBare(t: Tree)
    requires IsRequiringDocument(t)
    ensures Bare(t, [1, 2, 4])
         == [Description(1, "T", Token), Description(2, "P1", Principle), Description(4, "P2", Principle)]
  {
    var b := Bare(t, [1, 2, 4]);
    assert b[0] == Description(1, "T", Token);
    assert b[1] == Description(2, "P1", Principle);
    assert b[2] == Description(4, "P2", Principle);
  }

  lemma ScenarioBareNames(t: Tree)
    requires IsRequiringDocument(t)
    ensures |Process(t, 0, [], 0).descs| >= 3
    ensures Process(t, 0, [], 0).descs[..3]
         == [Description(1, "T", Token), Description(2, "P1", Principle), Description(4, "P2", Principle)]
  {
    ScenarioHead(t);
    ListOpensWithSpliceThenBareNames(t, 0, [], 0);
  }

  lemma ModelNamedElements(t: Tree)
    requires IsRequiringDocument(t)
    ensures NamedElements(t, 0) == [1, 2, 4]
  {
    assert NodeWellFormed(t, 0);
    assert FilterNamed(t, [4]) == [4];
    assert FilterNamed(t, [2, 4]) == [2] + FilterNamed(t, [4]);
  }

  lemma ScenarioRelation(t: Tree)
    requires IsRequiringDocument(t)
    ensures Description(3, "P1.test", Relation) in Process(t, 0, [], 0).descs
  {
    assert NameOf(t[2]) == "P1" && NameOf(t[3]) == "test";
    assert "P1" + "." + "test" == "P1.test";
    ModelListQualifiesRelations(t, 2, 3);
  }

  /** The lookup of `P1` in the head of the Model's list finds principle P1. */
  lemma ScenarioHeadLookup(t: Tree)
    requires IsRequiringDocument(t)
    ensures Lookup([] + ListHead(t, 0, [], 0), "P1") == Some(2)
  {
    ScenarioHead(t);
    var head := ListHead(t, 0, [], 0);
    assert [] + head == head;
    assert head[1..][0].name == "P1";
    assert Lookup(head, "P1") == Lookup(head[1..], "P1");
  }

  lemma ScenarioAlias(t: Tree)
    requires IsRequiringDocument(t)
    ensures Description(2, "P2.P1", Principle) in Process(t, 0, [], 0).descs
  {
    assert 4 in ContainerElements(t, 0) by {
      assert NodeWellFormed(t, 0);
      assert t[0].elements[2] == 4 && IsContainer(t, 4);
    }
    ScenarioHeadLookup(t);
    RequireAddsAlias(t, 0, [], 0, 4, "P1", 2);
    ScenarioAliasName(t);
  }

  lemma ScenarioAliasName(t: Tree)
    requires IsRequiringDocument(t)
    ensures Describe(t, 2, NameOf(t[4]) + "." + "P1") == Description(2, "P2.P1", Principle)
  {
    assert NameOf(t[4]) == "P2";
  }
}

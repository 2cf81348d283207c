/** The document of the "requiring a principle in a language" linking
    scenario, built by hand:

      language L {
        token T
        principle P1 { relation test[T,T] }
        principle P2 { require P1 }
        principle P3 { apply P2.P1 {} }
      }

    The alias `P2.P1` that P2's round adds to L's list is in the frame P3's
    round hands down, so the `apply` inside P3 finds principle P1 through it
    and splices in P1's relation `test`. */
module LanguageDocuments {
  import opened SlartiAst
  import opened ScopeScenarios

  /** Model 0 holds language L (1) with token T (2) and principles P1 (3,
      with relation test, 4), P2 (5, requiring P1) and P3 (6, whose apply 7
      names `P2.P1`). */
  function LanguageDocument(): Tree {
    [ Node(Model, None, None, [1], [], [], [], [], [], [], [], ""),
      Node(Language, Some("L"), Some(0), [], [2], [3, 5, 6], [], [], [], [], [], ""),
      Leaf(Token, Some("T"), Some(1)),
      Node(Principle, Some("P1"), Some(1), [], [], [], [4], [], [], [], [], ""),
      Leaf(Relation, Some("test"), Some(3)),
      Node(Principle, Some("P2"), Some(1), [], [], [], [], [], [], [], ["P1"], ""),
      Node(Principle, Some("P3"), Some(1), [], [], [], [], [], [7], [], [], ""),
      Node(Apply, None, Some(6), [], [], [], [], [], [], [], [], "P2.P1") ]
  }

  lemma LanguageDocumentWellFormed()
    ensures WellFormed(LanguageDocument())
  {
    var t := LanguageDocument();
    forall i | 0 <= i < |t| ensures NodeWellFormed(t, i) {
      if i == 0 {
        RootWellFormed();
      } else if i == 1 {
        LanguageWellFormed();
      } else if i == 3 {
        FirstPrincipleWellFormed();
      } else if i == 6 {
        ApplyingPrincipleWellFormed();
      } else {
        ChildlessWellFormed(i);
      }
    }
  }

  lemma RootWellFormed()
    ensures NodeWellFormed(LanguageDocument(), 0)
  {
    var t := LanguageDocument();
    assert ChildrenOf(t, 0, [1]);
  }

  lemma LanguageWellFormed()
    ensures NodeWellFormed(LanguageDocument(), 1)
  {
    var t := LanguageDocument();
    assert ChildrenOf(t, 1, [2]) && AllOfKind(t, [2], Token);
    forall j | 0 <= j < 3
      ensures 1 < [3, 5, 6][j] < |t| && t[[3, 5, 6][j]].parent == Some(1) && t[[3, 5, 6][j]].kind == Principle
    {
      if j == 0 { assert t[3].parent == Some(1); }
      else if j == 1 { assert t[5].parent == Some(1); }
      else { assert t[6].parent == Some(1); }
    }
  }

  lemma FirstPrincipleWellFormed()
    ensures NodeWellFormed(LanguageDocument(), 3)
  {
    var t := LanguageDocument();
    assert ChildrenOf(t, 3, [4]) && AllOfKind(t, [4], Relation);
  }

  lemma ApplyingPrincipleWellFormed()
    ensures NodeWellFormed(LanguageDocument(), 6)
  {
    var t := LanguageDocument();
    assert ChildrenOf(t, 6, [7]) && AllOfKind(t, [7], Apply);
  }

  lemma ChildlessWellFormed(i: NodeId)
    requires i == 2 || i == 4 || i == 5 || i == 7
    ensures NodeWellFormed(LanguageDocument(), i)
  {
  }

  /** The shape of the scenario's document, as the lemmas below use it. */
  ghost predicate IsLanguageDocument(t: Tree) {
    && WellFormed(t) && |t| == 8
    && t[0].elements == [1]
    && t[1].kind == Language && t[1].name == Some("L") && t[1].tokens == [2] && t[1].principles == [3, 5, 6]
    && t[2].kind == Token && t[2].name == Some("T") && t[2].terms == []
    && t[3].kind == Principle && t[3].name == Some("P1") && t[3].relations == [4]
    && t[3].terms == [] && t[3].applies == [] && t[3].required == []
    && t[4].kind == Relation && t[4].name == Some("test")
    && t[5].kind == Principle && t[5].name == Some("P2") && t[5].relations == []
    && t[5].terms == [] && t[5].applies == [] && t[5].required == ["P1"]
    && t[6].kind == Principle && t[6].name == Some("P3") && t[6].relations == []
    && t[6].terms == [] && t[6].applies == [7]
    && t[7].kind == Apply && t[7].principleRef == "P2.P1"
  }

  lemma LanguageDocumentHasShape()
    ensures IsLanguageDocument(LanguageDocument())
  {
    LanguageDocumentWellFormed();
  }
}

/** The scenario itself, round by round. */
module LanguageScenario {
  import opened SlartiAst
  import opened Descriptions
  import opened QualifiedNames
  import opened ScopeComputation
  import opened ScopeProperties
  import opened ScopeRounds
  import opened LanguageDocuments

  // ---------------------------------------------------------------------
  // The rule tables on this document
  // ---------------------------------------------------------------------

  lemma RootElements(t: Tree)
    requires IsLanguageDocument(t)
    ensures NamedElements(t, 0) == [1]
    ensures |ContainerElements(t, 0)| == 1 && ContainerElements(t, 0)[0] == 1
  {
    assert NodeWellFormed(t, 0);
    assert FilterNamed(t, [1]) == [1];
    assert FilterContainers(t, [1]) == [1];
  }

  lemma LanguageElements(t: Tree)
    requires IsLanguageDocument(t)
    ensures NamedElements(t, 1) == [2, 3, 5, 6] && ContainerElements(t, 1) == [2, 3, 5, 6]
  {
    assert [2] + [3, 5, 6] == [2, 3, 5, 6];
  }

  /** L's container elements, one by one. */
  lemma LanguageContainers(t: Tree)
    requires IsLanguageDocument(t)
    ensures |ContainerElements(t, 1)| == 4
    ensures ContainerElements(t, 1)[0] == 2 && ContainerElements(t, 1)[1] == 3
    ensures ContainerElements(t, 1)[2] == 5 && ContainerElements(t, 1)[3] == 6
  {
    LanguageElements(t);
  }

  lemma FirstPrincipleElements(t: Tree)
    requires IsLanguageDocument(t)
    ensures NamedElements(t, 3) == [4] && ContainerElements(t, 3) == [4]
  {
    assert [4] + [] == [4];
  }

  lemma ApplyingPrincipleElements(t: Tree)
    requires IsLanguageDocument(t)
    ensures NamedElements(t, 6) == []
    ensures |ContainerElements(t, 6)| == 1 && ContainerElements(t, 6)[0] == 7
  {
    assert [] + [7] == [7];
  }

  lemma ChildlessElements(t: Tree, c: NodeId)
    requires IsLanguageDocument(t) && (c == 2 || c == 4 || c == 5)
    ensures NamedElements(t, c) == [] && ContainerElements(t, c) == []
  {
  }

  // ---------------------------------------------------------------------
  // The lists
  // ---------------------------------------------------------------------

  /** Token T, relation test and principle P2 contribute nothing of their
      own, in any frame. */
  lemma ChildlessLists(t: Tree, c: NodeId, frame: seq<Description>, lo: nat)
    requires IsLanguageDocument(t) && (c == 2 || c == 4 || c == 5)
    requires lo <= c && NodesWithin(t, frame, lo)
    ensures Process(t, c, frame, lo).descs == []
  {
    ChildlessElements(t, c);
    EmptyContainerList(t, c, frame, lo);
  }

  /** Principle P1's list, in any frame, is its relation `test`. */
  lemma FirstPrincipleList(t: Tree, frame: seq<Description>, lo: nat)
    requires IsLanguageDocument(t) && lo <= 3 && NodesWithin(t, frame, lo)
    ensures Process(t, 3, frame, lo).descs == [Description(4, "test", Relation)]
  {
    FirstPrincipleElements(t);
    ChildlessElements(t, 4);
    OneQuietElement(t, 3, frame, lo, 4);
    FirstPrincipleHead(t, frame, lo);
  }

  lemma FirstPrincipleHead(t: Tree, frame: seq<Description>, lo: nat)
    requires IsLanguageDocument(t) && lo <= 3 && NodesWithin(t, frame, lo)
    ensures ListHead(t, 3, frame, lo) == [Description(4, "test", Relation)]
  {
    FirstPrincipleElements(t);
    assert Bare(t, [4])[0] == Description(4, "test", Relation);
  }


  // ---------------------------------------------------------------------
  // The rounds.  The frames and round numbers are parameters fixed by
  // `requires`, which keeps the solver from unfolding the specification
  // functions on literal arguments.
  // ---------------------------------------------------------------------

  /** The Model's head is the bare name of L. */
  lemma ModelHead(t: Tree, root: seq<Description>)
    requires IsLanguageDocument(t) && root == []
    ensures |ContainerElements(t, 0)| == 1
    ensures ListHead(t, 0, root, 0) == [Description(1, "L", Language)]
  {
    RootElements(t);
    assert Bare(t, [1])[0] == Description(1, "L", Language);
  }

  /** L is processed in the frame holding its own bare name. */
  lemma LanguageFrame(t: Tree, root: seq<Description>, i: nat)
    requires IsLanguageDocument(t) && root == [] && i == 0
    ensures |ContainerElements(t, 0)| == 1
    ensures RoundFrame(t, 0, root, 0, i) == [Description(1, "L", Language)]
  {
    ModelHead(t, root);
    FirstRoundFrame(t, 0, root, 0);
    assert root + [Description(1, "L", Language)] == [Description(1, "L", Language)];
  }

  function LanguageHeadNames(): seq<Description> {
    [Description(2, "T", Token), Description(3, "P1", Principle),
     Description(5, "P2", Principle), Description(6, "P3", Principle)]
  }

  /** The head of L's list: the bare names of T, P1, P2 and P3. */
  lemma LanguageBareNames(t: Tree, fL: seq<Description>)
    requires IsLanguageDocument(t) && fL == [Description(1, "L", Language)]
    ensures ListHead(t, 1, fL, 0) == LanguageHeadNames()
  {
    LanguageElements(t);
    var b := Bare(t, [2, 3, 5, 6]);
    assert b[0] == Description(2, "T", Token) && b[1] == Description(3, "P1", Principle);
    assert b[2] == Description(5, "P2", Principle) && b[3] == Description(6, "P3", Principle);
  }

  lemma LanguageHead(t: Tree, fL: seq<Description>, i: nat)
    requires IsLanguageDocument(t) && fL == [Description(1, "L", Language)] && i == 0
    ensures |ContainerElements(t, 1)| == 4
    ensures Gathered(t, 1, fL, 0, i).descs == LanguageHeadNames()
  {
    LanguageContainers(t);
    GatheredZero(t, 1, fL, 0);
    LanguageBareNames(t, fL);
  }

  /** Round 0 (token T) adds nothing. */
  lemma TokenRound(t: Tree, fL: seq<Description>, i: nat)
    requires IsLanguageDocument(t) && fL == [Description(1, "L", Language)] && i == 1
    ensures |ContainerElements(t, 1)| == 4
    ensures Gathered(t, 1, fL, 0, i).descs == LanguageHeadNames()
  {
    LanguageHead(t, fL, i - 1);
    TokenRoundKeeps(t, fL, i - 1);
  }

  lemma TokenRoundKeeps(t: Tree, fL: seq<Description>, i: nat)
    requires IsLanguageDocument(t) && NodesWithin(t, fL, 0) && i == 0
    ensures Gathered(t, 1, fL, 0, i + 1).descs == Gathered(t, 1, fL, 0, i).descs
  {
    LanguageContainers(t);
    ChildlessElements(t, 2);
    ChildlessRound(t, 1, fL, 0, i, 2);
  }

  /** Round 1 (principle P1) adds its relation as `L.P1.test`. */
  lemma FirstPrincipleRound(t: Tree, fL: seq<Description>, i: nat)
    requires IsLanguageDocument(t) && fL == [Description(1, "L", Language)] && i == 2
    ensures |ContainerElements(t, 1)| == 4
    ensures Gathered(t, 1, fL, 0, i).descs == LanguageHeadNames() + [Description(4, "L.P1.test", Relation)]
  {
    LanguageContainers(t);
    TokenRound(t, fL, i - 1);
    FirstPrincipleList(t, RoundFrame(t, 1, fL, 0, i - 1), 0);
    PrincipleRound(t, 1, fL, 0, i - 1, [Description(4, "test", Relation)]);
    QualifiedRelation(t);
  }

  /** P1's relation, re-qualified against P1, is `L.P1.test`. */
  lemma QualifiedRelation(t: Tree)
    requires IsLanguageDocument(t)
    ensures QualifyAll(t, 3, [Description(4, "test", Relation)]) == [Description(4, "L.P1.test", Relation)]
  {
    RelationPath(t);
    assert QualifyAll(t, 3, [Description(4, "test", Relation)])[0]
        == Qualify(t, 3, Description(4, "test", Relation));
  }

  lemma RelationPath(t: Tree)
    requires IsLanguageDocument(t)
    ensures QualifiedName(t, 3, "test") == "L.P1.test"
  {
    assert NodeWellFormed(t, 1) && NodeWellFormed(t, 3);
    assert 3 in t[1].principles && 4 in t[3].relations;
    assert t[1].parent == Some(0) by {
      assert NodeWellFormed(t, 0);
      assert t[0].elements[0] == 1;
    }
    LanguagePrinciplePath(t, 1, 3, 4);
    assert NameOf(t[1]) == "L" && NameOf(t[3]) == "P1" && NameOf(t[4]) == "test";
    assert "L" + "." + "P1" + "." + "test" == "L.P1.test";
  }

  function LanguageListBeforeP3(): seq<Description> {
    LanguageHeadNames() + [Description(4, "L.P1.test", Relation), Description(3, "P2.P1", Principle)]
  }

  /** Round 2 (principle P2, `require P1`) adds the alias `P2.P1` for P1. */
  lemma RequiringRound(t: Tree, fL: seq<Description>, i: nat)
    requires IsLanguageDocument(t) && fL == [Description(1, "L", Language)] && i == 3
    ensures |ContainerElements(t, 1)| == 4
    ensures Gathered(t, 1, fL, 0, i).descs == LanguageListBeforeP3()
  {
    FirstPrincipleRound(t, fL, i - 1);
    RequiringRoundAliases(t, fL, i - 1);
    AliasOfFirstPrinciple(t, LanguageHeadNames() + [Description(4, "L.P1.test", Relation)]);
  }

  lemma RequiringRoundAliases(t: Tree, fL: seq<Description>, i: nat)
    requires IsLanguageDocument(t) && NodesWithin(t, fL, 0) && i == 2
    ensures Gathered(t, 1, fL, 0, i + 1).descs == Aliases(t, fL, Gathered(t, 1, fL, 0, i).descs, "P2", ["P1"], 0)
  {
    LanguageContainers(t);
    ChildlessElements(t, 5);
    ChildlessPrincipleRound(t, 1, fL, 0, i, 5);
  }


  /** P2's one `require` finds P1 among L's bare names. */
  lemma AliasOfFirstPrinciple(t: Tree, g: seq<Description>)
    requires |t| == 8 && t[3].kind == Principle
    requires g == LanguageHeadNames() + [Description(4, "L.P1.test", Relation)]
    ensures NodesWithin(t, g, 0)
    ensures Aliases(t, [Description(1, "L", Language)], g, "P2", ["P1"], 0) == LanguageListBeforeP3()
  {
    AliasIsP2P1(t, g);
    assert g + [Description(3, "P2.P1", Principle)] == LanguageListBeforeP3();
  }

  lemma AliasIsP2P1(t: Tree, g: seq<Description>)
    requires |t| == 8 && t[3].kind == Principle
    requires g == LanguageHeadNames() + [Description(4, "L.P1.test", Relation)]
    ensures NodesWithin(t, [Description(1, "L", Language)], 0) && NodesWithin(t, g, 0)
    ensures Aliases(t, [Description(1, "L", Language)], g, "P2", ["P1"], 0)
         == g + [Description(3, "P2.P1", Principle)]
  {
    var fL := [Description(1, "L", Language)];
    assert NodesWithin(t, fL, 0);
    assert NodesWithin(t, g, 0);
    FirstPrincipleVisible(fL + g);
    OneAlias(t, fL, g, "P2", "P1", 0, 3);
    AliasName();
  }

  lemma AliasName()
    ensures "P2" + "." + "P1" == "P2.P1"
  {
  }

  /** A single `require` whose name is found adds one alias. */
  lemma OneAlias(t: Tree, frame: seq<Description>, acc: seq<Description>, root: string, q: string,
                 lo: nat, n: NodeId)
    requires NodesWithin(t, frame, lo) && NodesWithin(t, acc, lo)
    requires Lookup(frame + acc, q) == Some(n) && n < |t|
    ensures Aliases(t, frame, acc, root, [q], lo) == acc + [Describe(t, n, root + "." + q)]
  {
    assert [q][1..] == [];
  }

  lemma FirstPrincipleVisible(scope: seq<Description>)
    requires scope == [Description(1, "L", Language)] + LanguageHeadNames()
                      + [Description(4, "L.P1.test", Relation)]
    ensures Lookup(scope, "P1") == Some(3)
  {
    assert scope[..2] + scope[2..] == scope;
    assert scope[0].name != "P1" && scope[1].name != "P1";
    LookupPastPrefix(scope[..2], scope[2..], "P1");
    assert scope[2..][0] == Description(3, "P1", Principle);
  }

  /** The frame of P3's apply is L's own bare name followed by L's list as
      it stands before P3's round; P3 has no named elements of its own. */
  lemma ApplyFrame(t: Tree, fP3: seq<Description>, i: nat)
    requires IsLanguageDocument(t) && i == 0
    requires fP3 == [Description(1, "L", Language)] + LanguageListBeforeP3()
    ensures NodesWithin(t, fP3, 0)
    ensures |ContainerElements(t, 6)| == 1
    ensures RoundFrame(t, 6, fP3, 0, i) == fP3
  {
    assert NodesWithin(t, fP3, 0);
    ApplyingPrincipleElements(t);
    FirstRoundFrame(t, 6, fP3, 0);
    assert ListHead(t, 6, fP3, 0) == [];
    assert fP3 + [] == fP3;
  }

  /** `P2.P1` resolves to P1 in the frame of the apply. */
  lemma AliasResolves(fA: seq<Description>)
    requires fA == [Description(1, "L", Language)] + LanguageListBeforeP3()
    ensures Lookup(fA, "P2.P1") == Some(3)
  {
    var before := [Description(1, "L", Language)] + LanguageHeadNames() + [Description(4, "L.P1.test", Relation)];
    assert fA == before + [Description(3, "P2.P1", Principle)];
    forall k | 0 <= k < |before| ensures before[k].name != "P2.P1" {
      assert |before[k].name| != |"P2.P1"|;
    }
    LookupPastPrefix(before, [Description(3, "P2.P1", Principle)], "P2.P1");
  }

  /** The `apply` re-enters P1 afresh and keeps its relation. */
  lemma ApplyOfAlias(t: Tree, fA: seq<Description>)
    requires IsLanguageDocument(t) && NodesWithin(t, fA, 0) && Lookup(fA, "P2.P1") == Some(3)
    ensures Process(t, 7, fA, 0).descs == [Description(4, "test", Relation)]
  {
    AppliedPrinciple(t, fA);
    FirstPrincipleList(t, [], 3);
    RelationsOfTest();
  }

  lemma AppliedPrinciple(t: Tree, fA: seq<Description>)
    requires IsLanguageDocument(t) && NodesWithin(t, fA, 0) && Lookup(fA, "P2.P1") == Some(3)
    ensures Process(t, 7, fA, 0).descs == RelationsOf(Process(t, 3, [], 3).descs)
  {
    assert IsContainer(t, 3);
    ApplyListIsSplice(t, 7, fA, 0);
  }

  lemma RelationsOfTest()
    ensures RelationsOf([Description(4, "test", Relation)]) == [Description(4, "test", Relation)]
  {
    assert [Description(4, "test", Relation)][1..] == [];
  }

  /** L's list holds the alias once P2's round is over. */
  lemma AliasInLanguageList(t: Tree, fL: seq<Description>, i: nat)
    requires IsLanguageDocument(t) && fL == [Description(1, "L", Language)] && i == 3
    ensures Description(3, "P2.P1", Principle) in Process(t, 1, fL, 0).descs
  {
    RequiringRound(t, fL, i);
    assert LanguageListBeforeP3()[5] == Description(3, "P2.P1", Principle);
    GatheredInList(t, 1, fL, 0, i, Description(3, "P2.P1", Principle));
  }

  /** P3's round hands down L's bare name followed by L's list as it stands
      after P2's round. */
  lemma ThirdRoundFrame(t: Tree, fL: seq<Description>, i: nat)
    requires IsLanguageDocument(t) && fL == [Description(1, "L", Language)] && i == 3
    ensures |ContainerElements(t, 1)| == 4
    ensures RoundFrame(t, 1, fL, 0, i) == fL + LanguageListBeforeP3()
  {
    RequiringRound(t, fL, i);
  }

  /** The scenario: the frame that `processContainer` hands from the Model
      to L, from L to P3 and from P3 to its `apply` resolves `P2.P1` to
      principle P1, the `apply`'s list is P1's relation `test`, and L's
      list holds the alias `P2.P1`. */
  lemma RequiringInLanguageScenario(t: Tree)
    requires IsLanguageDocument(t)
    ensures |ContainerElements(t, 0)| == 1 && |ContainerElements(t, 1)| == 4
    ensures |ContainerElements(t, 6)| == 1
    ensures var fL := RoundFrame(t, 0, [], 0, 0);
            var fP3 := RoundFrame(t, 1, fL, 0, 3);
            var fA := RoundFrame(t, 6, fP3, 0, 0);
            && Lookup(fA, "P2.P1") == Some(3)
            && Process(t, 7, fA, 0).descs == [Description(4, "test", Relation)]
            && Description(3, "P2.P1", Principle) in Process(t, 1, fL, 0).descs
  {
    var fL := [Description(1, "L", Language)];
    LanguageFrame(t, [], 0);
    ThirdRoundFrame(t, fL, 3);
    var fP3 := fL + LanguageListBeforeP3();
    ApplyFrame(t, fP3, 0);
    AliasResolves(fP3);
    ApplyOfAlias(t, fP3);
    AliasInLanguageList(t, fL, 3);
  }
}

/** What the scope computation promises, stated over the specification
    functions of `ScopeComputation` (which the imperative pass is proved to
    follow). */
module ScopeProperties {
  import opened SlartiAst
  import opened Descriptions
  import opened QualifiedNames
  import opened ScopeComputation

  // ---------------------------------------------------------------------
  // The scope table only grows
  // ---------------------------------------------------------------------

  /** `m'` keeps every list of `m` as a prefix of its own list. */
  ghost predicate Extends(m: Scopes, m': Scopes) {
    forall k | k in m :: k in m' && |m[k]| <= |m'[k]| && m'[k][..|m[k]|] == m[k]
  }

  /** Replaying appends never removes or reorders what a list held. */
  lemma {:induction false} ReplayExtends(m: Scopes, log: seq<Append>)
    ensures Extends(m, Replay(m, log))
    decreases |log|
  {
    if |log| > 0 {
      var mid := Replay(m, log[..|log| - 1]);
      ReplayExtends(m, log[..|log| - 1]);
      forall k | k in m ensures k in Replay(m, log) && Replay(m, log)[k][..|m[k]|] == m[k] {
        assert Replay(m, log)[k][..|mid[k]|] == mid[k];
        assert mid[k][..|m[k]|] == m[k];
      }
    }
  }

  /** Appends made under other keys leave a key's list alone. */
  lemma {:induction false} ReplayOtherKeys(m: Scopes, log: seq<Append>, key: NodeId)
    requires forall k | 0 <= k < |log| :: log[k].key != key
    ensures Get(Replay(m, log), key) == Get(m, key)
    decreases |log|
  {
    if |log| > 0 {
      ReplayOtherKeys(m, log[..|log| - 1], key);
    }
  }

  /** Each call of `processContainer` appends exactly its returned list to the
      list of its own container, as the last thing it does, and removes
      nothing from any list. */
  lemma CallAppendsItsList(m: Scopes, t: Tree, c: NodeId, frame: seq<Description>, lo: nat)
    requires WellFormed(t) && lo <= c < |t| && NodesWithin(t, frame, lo)
    ensures var after := Replay(m, Process(t, c, frame, lo).log);
      && Extends(m, after)
      && c in after
      && |Process(t, c, frame, lo).descs| <= |after[c]|
      && after[c][|after[c]| - |Process(t, c, frame, lo).descs|..] == Process(t, c, frame, lo).descs
  {
    ReplayExtends(m, Process(t, c, frame, lo).log);
  }

  /** `computeLocalScopes` records under the Model exactly the Model's list:
      no other call appends to the root, since every other key lies above it. */
  lemma ModelScopeIsItsList(t: Tree)
    requires WellFormed(t)
    ensures 0 in Replay(map[], Process(t, 0, [], 0).log)
    ensures Replay(map[], Process(t, 0, [], 0).log)[0] == Process(t, 0, [], 0).descs
  {
    var log := Process(t, 0, [], 0).log;
    var front := log[..|log| - 1];
    assert forall k | 0 <= k < |front| :: front[k].key != 0;
    ReplayOtherKeys(map[], front, 0);
  }

  // ---------------------------------------------------------------------
  // Exports
  // ---------------------------------------------------------------------

  /** Every export is a named element of the Model's `elements`, exported
      under `<name>.<name>`, since its path includes itself. */
  lemma ExportsAreTopLevel(t: Tree)
    requires WellFormed(t)
    ensures forall i | 0 <= i < |Exports(t)| ::
      && 0 < Exports(t)[i].node < |t|
      && Exports(t)[i].node in t[0].elements
      && t[Exports(t)[i].node].parent == Some(0)
      && Exports(t)[i].name == NameOf(t[Exports(t)[i].node]) + "." + NameOf(t[Exports(t)[i].node])
  {
    assert NodeWellFormed(t, 0);
    var named := NamedElements(t, 0);
    forall i | 0 <= i < |Exports(t)|
      ensures && 0 < Exports(t)[i].node < |t|
              && Exports(t)[i].node in t[0].elements
              && t[Exports(t)[i].node].parent == Some(0)
              && Exports(t)[i].name == NameOf(t[Exports(t)[i].node]) + "." + NameOf(t[Exports(t)[i].node])
    {
      var x := named[i];
      assert IsNamed(t, x);
      TopLevelQualifiedName(t, x, NameOf(t[x]));
    }
  }

  /** Every named element of the Model's `elements` is exported. */
  lemma ExportsComplete(t: Tree, x: NodeId)
    requires WellFormed(t) && x in t[0].elements && x < |t| && IsNamed(t, x)
    ensures exists i | 0 <= i < |Exports(t)| :: Exports(t)[i].node == x
  {
    assert NodeWellFormed(t, 0);
    var named := NamedElements(t, 0);
    var i :| 0 <= i < |named| && named[i] == x;
    assert Exports(t)[i].node == x;
  }

  // ---------------------------------------------------------------------
  // Order of a container's list
  // ---------------------------------------------------------------------

  /** The head of a container's list: the spliced relations (non-empty only
      for an `apply`), then one bare-name description per named element, in
      rule-table order. */
  function ListHead(t: Tree, c: NodeId, frame: seq<Description>, ghost lo: nat): (r: seq<Description>)
    requires WellFormed(t) && lo <= c < |t| && NodesWithin(t, frame, lo)
    ensures NodesWithin(t, r, lo)
  {
    var bare := Bare(t, NamedElements(t, c));
    NodesWithinConcat(t, Splice(t, c, frame, lo).descs, bare, lo);
    Splice(t, c, frame, lo).descs + bare
  }

  /** A container's list opens with its head; only an `apply` splices. */
  lemma ListOpensWithSpliceThenBareNames(t: Tree, c: NodeId, frame: seq<Description>, lo: nat)
    requires WellFormed(t) && lo <= c < |t| && NodesWithin(t, frame, lo)
    ensures |ListHead(t, c, frame, lo)| <= |Process(t, c, frame, lo).descs|
    ensures Process(t, c, frame, lo).descs[..|ListHead(t, c, frame, lo)|] == ListHead(t, c, frame, lo)
    ensures t[c].kind != Apply ==> Splice(t, c, frame, lo).descs == []
  {
  }

  /** A container's list is what the loop over its container elements
      leaves, starting from the head. */
  lemma ProcessIsNested(t: Tree, c: NodeId, frame: seq<Description>, lo: nat)
    requires WellFormed(t) && lo <= c < |t| && NodesWithin(t, frame, lo)
    ensures Process(t, c, frame, lo).descs
         == ProcessNested(t, c, frame, lo, ContainerElements(t, c), ListHead(t, c, frame, lo),
                          Splice(t, c, frame, lo).log).descs
  {
  }

  /** The list of an `apply` is exactly the `Relation` descriptions of the
      principle its reference text names in the frame, computed afresh; when
      the name is not found, or names a node that is not a container, the
      list is empty and nothing is reported. */
  lemma ApplyListIsSplice(t: Tree, c: NodeId, frame: seq<Description>, lo: nat)
    requires WellFormed(t) && lo <= c < |t| && NodesWithin(t, frame, lo)
    requires t[c].kind == Apply
    ensures var found := Lookup(frame, t[c].principleRef);
      (found.None? || !IsContainer(t, found.value)) ==> Process(t, c, frame, lo).descs == []
    ensures var found := Lookup(frame, t[c].principleRef);
      found.Some? && IsContainer(t, found.value) ==>
        && lo < found.value < |t|
        && Process(t, c, frame, lo).descs == RelationsOf(Process(t, found.value, [], found.value).descs)
        && (forall d :: d in Process(t, c, frame, lo).descs <==>
              d in Process(t, found.value, [], found.value).descs && d.kind == Relation)
  {
    ApplyListIsSpliced(t, c, frame, lo);
    var found := Lookup(frame, t[c].principleRef);
    if found.Some? {
      LookupWithin(t, frame, t[c].principleRef, lo);
    }
  }

  /** An `apply` has no named or container elements: its list is what the
      head splices in. */
  lemma ApplyListIsSpliced(t: Tree, c: NodeId, frame: seq<Description>, lo: nat)
    requires WellFormed(t) && lo <= c < |t| && NodesWithin(t, frame, lo)
    requires t[c].kind == Apply
    ensures Process(t, c, frame, lo).descs == Splice(t, c, frame, lo).descs
  {
    assert NamedElements(t, c) == [] && ContainerElements(t, c) == [];
    assert ListHead(t, c, frame, lo) == Splice(t, c, frame, lo).descs;
    ProcessIsNested(t, c, frame, lo);
  }

  /** Re-entering the applied principle appends a second copy of that
      principle's list under the principle itself. */
  lemma ApplyReentryAppendsAgain(t: Tree, c: NodeId, frame: seq<Description>, lo: nat)
    requires WellFormed(t) && lo <= c < |t| && NodesWithin(t, frame, lo)
    requires t[c].kind == Apply
    requires Lookup(frame, t[c].principleRef).Some?
    requires IsContainer(t, Lookup(frame, t[c].principleRef).value)
    ensures var n := Lookup(frame, t[c].principleRef).value;
      lo < n < |t| && Append(n, Process(t, n, [], n).descs) in Process(t, c, frame, lo).log
  {
    var n := Lookup(frame, t[c].principleRef).value;
    LookupWithin(t, frame, t[c].principleRef, lo);
    var inner := Process(t, n, [], n).log;
    var spliced := Splice(t, c, frame, lo);
    assert spliced.log == inner;
    var nested := ProcessNested(t, c, frame, lo, ContainerElements(t, c),
                                spliced.descs + Bare(t, NamedElements(t, c)), spliced.log);
    assert nested.log[..|inner|] == inner;
    assert nested.log[|inner| - 1] == inner[|inner| - 1];
    assert Process(t, c, frame, lo).log[|inner| - 1] == nested.log[|inner| - 1];
  }

  // ---------------------------------------------------------------------
  // Nested containers are re-qualified into their parent's list
  // ---------------------------------------------------------------------

  /** Where the bare description of a named element sits in its container's
      list. */
  lemma BareEntry(t: Tree, c: NodeId, frame: seq<Description>, lo: nat, x: NodeId) returns (k: nat)
    requires WellFormed(t) && lo <= c < |t| && NodesWithin(t, frame, lo)
    requires x in NamedElements(t, c)
    ensures x < |t|
    ensures k < |Process(t, c, frame, lo).descs|
    ensures Process(t, c, frame, lo).descs[k] == Describe(t, x, NameOf(t[x]))
  {
    var named := NamedElements(t, c);
    var i :| 0 <= i < |named| && named[i] == x;
    var sp := Splice(t, c, frame, lo).descs;
    var head := ListHead(t, c, frame, lo);
    k := |sp| + i;
    assert head[k] == Describe(t, x, NameOf(t[x])) by {
      assert head[k] == Bare(t, named)[i];
    }
    assert Process(t, c, frame, lo).descs[k] == head[k] by {
      ListOpensWithSpliceThenBareNames(t, c, frame, lo);
      IndexInPrefix(Process(t, c, frame, lo).descs, head, k);
    }
  }

  lemma IndexInPrefix<T>(s: seq<T>, head: seq<T>, k: nat)
    requires |head| <= |s| && s[..|head|] == head && k < |head|
    ensures s[k] == head[k]
  {
    assert s[..|head|][k] == s[k];
  }

  /** One round of the loop for element `e` keeps what was gathered and then
      the nested list of `e`, re-qualified against `e`, before any alias. */
  lemma NestOpensWithQualified(t: Tree, e: NodeId, frame: seq<Description>, lo: nat,
                               acc: seq<Description>)
    requires WellFormed(t) && lo < e < |t|
    requires NodesWithin(t, frame, lo) && NodesWithin(t, acc, lo) && NodesWithin(t, frame + acc, lo)
    ensures |acc + QualifyAll(t, e, Process(t, e, frame + acc, lo).descs)| <= |Nest(t, e, frame, lo, acc).descs|
    ensures Nest(t, e, frame, lo, acc).descs[..|acc + QualifyAll(t, e, Process(t, e, frame + acc, lo).descs)|]
         == acc + QualifyAll(t, e, Process(t, e, frame + acc, lo).descs)
  {
    var qualified := acc + QualifyAll(t, e, Process(t, e, frame + acc, lo).descs);
    NodesWithinConcat(t, acc, QualifyAll(t, e, Process(t, e, frame + acc, lo).descs), lo);
    if t[e].kind == Principle {
      NestOfPrinciple(t, e, frame, lo, acc);
    } else {
      assert Nest(t, e, frame, lo, acc).descs == qualified;
    }
  }

  /** One round of the loop for element `e` adds, for each named element
      `x` of `e`, the description of `x` under its name qualified against
      `e`. */
  lemma NestQualifies(t: Tree, e: NodeId, frame: seq<Description>, lo: nat,
                      acc: seq<Description>, x: NodeId)
    requires WellFormed(t) && lo < e < |t|
    requires NodesWithin(t, frame, lo) && NodesWithin(t, acc, lo)
    requires x in NamedElements(t, e)
    ensures x < |t|
    ensures Description(x, QualifiedName(t, e, NameOf(t[x])), t[x].kind) in Nest(t, e, frame, lo, acc).descs
  {
    NodesWithinConcat(t, frame, acc, lo);
    var nested := Process(t, e, frame + acc, lo).descs;
    var k := BareEntry(t, e, frame + acc, lo, x);
    var qualified := acc + QualifyAll(t, e, nested);
    assert qualified[|acc| + k] == Qualify(t, e, nested[k]);
    var next := Nest(t, e, frame, lo, acc).descs;
    NestOpensWithQualified(t, e, frame, lo, acc);
    assert next[|acc| + k] == next[..|qualified|][|acc| + k];
  }

  /** The loop over container elements keeps, for every element `e` it
      visits, the requalified bare description of every named element of
      `e`. */
  lemma {:induction false} NestedKeepsQualified(t: Tree, c: NodeId, frame: seq<Description>, lo: nat,
                                                elems: seq<NodeId>, acc: seq<Description>,
                                                log: seq<Append>, e: NodeId, x: NodeId)
    requires WellFormed(t) && lo <= c < |t|
    requires NodesWithin(t, frame, lo) && NodesWithin(t, acc, lo) && KeysAbove(t, log, lo)
    requires forall j | 0 <= j < |elems| :: c < elems[j] < |t|
    requires e in elems && x in NamedElements(t, e)
    ensures x < |t|
    ensures Description(x, QualifiedName(t, e, NameOf(t[x])), t[x].kind)
            in ProcessNested(t, c, frame, lo, elems, acc, log).descs
    decreases |elems|
  {
    if elems[0] == e {
      FirstRoundQualifies(t, c, frame, lo, elems, acc, log, x);
    } else {
      var step := Nest(t, elems[0], frame, lo, acc);
      NestedUnfold(t, c, frame, lo, elems, acc, log);
      NestedKeepsQualified(t, c, frame, lo, elems[1..], step.descs, log + step.log, e, x);
    }
  }

  /** The first round of the loop over container elements adds the
      requalified named elements of its element, and the rest keeps them. */
  lemma FirstRoundQualifies(t: Tree, c: NodeId, frame: seq<Description>, lo: nat,
                            elems: seq<NodeId>, acc: seq<Description>, log: seq<Append>, x: NodeId)
    requires WellFormed(t) && lo <= c < |t|
    requires NodesWithin(t, frame, lo) && NodesWithin(t, acc, lo) && KeysAbove(t, log, lo)
    requires forall j | 0 <= j < |elems| :: c < elems[j] < |t|
    requires |elems| > 0 && x in NamedElements(t, elems[0])
    ensures x < |t|
    ensures Description(x, QualifiedName(t, elems[0], NameOf(t[x])), t[x].kind)
            in ProcessNested(t, c, frame, lo, elems, acc, log).descs
  {
    var step := Nest(t, elems[0], frame, lo, acc);
    NestedUnfold(t, c, frame, lo, elems, acc, log);
    NestQualifies(t, elems[0], frame, lo, acc, x);
    NestedKeepsGathered(t, c, frame, lo, elems[1..], step.descs, log + step.log,
                        Description(x, QualifiedName(t, elems[0], NameOf(t[x])), t[x].kind));
  }

  /** One round of the loop over container elements, then the rest. */
  lemma NestedUnfold(t: Tree, c: NodeId, frame: seq<Description>, lo: nat,
                     elems: seq<NodeId>, acc: seq<Description>, log: seq<Append>)
    requires WellFormed(t) && lo <= c < |t|
    requires NodesWithin(t, frame, lo) && NodesWithin(t, acc, lo) && KeysAbove(t, log, lo)
    requires forall j | 0 <= j < |elems| :: c < elems[j] < |t|
    requires |elems| > 0
    ensures lo < elems[0] < |t|
    ensures KeysAbove(t, log + Nest(t, elems[0], frame, lo, acc).log, lo)
    ensures ProcessNested(t, c, frame, lo, elems, acc, log)
         == ProcessNested(t, c, frame, lo, elems[1..], Nest(t, elems[0], frame, lo, acc).descs,
                          log + Nest(t, elems[0], frame, lo, acc).log)
  {
    KeysAboveConcat(t, log, Nest(t, elems[0], frame, lo, acc).log, lo);
  }

  /** The loop over container elements only appends: what was gathered
      before it stays. */
  lemma NestedKeepsGathered(t: Tree, c: NodeId, frame: seq<Description>, lo: nat,
                            elems: seq<NodeId>, acc: seq<Description>, log: seq<Append>, d: Description)
    requires WellFormed(t) && lo <= c < |t|
    requires NodesWithin(t, frame, lo) && NodesWithin(t, acc, lo) && KeysAbove(t, log, lo)
    requires forall j | 0 <= j < |elems| :: c < elems[j] < |t|
    requires d in acc
    ensures d in ProcessNested(t, c, frame, lo, elems, acc, log).descs
  {
    InPrefix(ProcessNested(t, c, frame, lo, elems, acc, log).descs, acc, d);
  }

  /** For every container element `e` of `c` and every named element `x` of
      `e`, the list of `c` holds `x` under the name qualified against `e`:
      the names of all named nodes from the root down to `e`, then the name
      of `x`. */
  lemma NestedNamesQualified(t: Tree, c: NodeId, frame: seq<Description>, lo: nat, e: NodeId, x: NodeId)
    requires WellFormed(t) && lo <= c < |t| && NodesWithin(t, frame, lo)
    requires e in ContainerElements(t, c) && x in NamedElements(t, e)
    ensures x < |t|
    ensures Description(x, Join(PathOf(t, e) + [NameOf(t[x])]), t[x].kind)
            in Process(t, c, frame, lo).descs
  {
    var spliced := Splice(t, c, frame, lo);
    NestedKeepsQualified(t, c, frame, lo, ContainerElements(t, c),
                         spliced.descs + Bare(t, NamedElements(t, c)), spliced.log, e, x);
  }

  lemma JoinThree(a: string, b: string, c: string)
    ensures Join([a, b, c]) == a + "." + b + "." + c
  {
    assert [a, b, c][1..] == [b, c];
    assert [b, c][1..] == [c];
    assert Join([b, c]) == b + "." + c;
    assert Join([a, b, c]) == a + "." + (b + "." + c);
  }

  /** The path of a named node is the path of its parent followed by its own
      name. */
  lemma PathOfNamedChild(t: Tree, p: NodeId, l: NodeId)
    requires WellFormed(t) && p < |t| && t[p].parent == Some(l) && IsNamed(t, p)
    ensures l < |t| && PathOf(t, p) == PathOf(t, l) + [NameOf(t[p])]
  {
    assert NodeWellFormed(t, p);
  }

  /** For a principle `P` directly in a top-level language `L`, the list of
      `L` holds `L.P.r` for every relation `r` of `P`. */
  lemma LanguageListQualifiesRelations(t: Tree, l: NodeId, p: NodeId, r: NodeId,
                                       frame: seq<Description>, lo: nat)
    requires WellFormed(t) && lo <= l < |t| && NodesWithin(t, frame, lo)
    requires t[l].kind == Language && t[l].parent == Some(0)
    requires p in t[l].principles && p < |t| && r in t[p].relations && r < |t|
    ensures Description(r, NameOf(t[l]) + "." + NameOf(t[p]) + "." + NameOf(t[r]), Relation)
            in Process(t, l, frame, lo).descs
  {
    LanguagePrincipleElements(t, l, p, r);
    LanguagePrinciplePath(t, l, p, r);
    NestedNamesQualified(t, l, frame, lo, p, r);
  }

  /** A principle of a language is one of its container elements, and a
      relation of the principle one of the principle's named elements. */
  lemma LanguagePrincipleElements(t: Tree, l: NodeId, p: NodeId, r: NodeId)
    requires WellFormed(t) && l < |t| && t[l].kind == Language
    requires p in t[l].principles && p < |t| && r in t[p].relations && r < |t|
    ensures p in ContainerElements(t, l) && r in NamedElements(t, p)
    ensures t[p].kind == Principle && t[r].kind == Relation
  {
    assert NodeWellFormed(t, l);
    assert NodeWellFormed(t, p);
    assert p in t[l].tokens + t[l].principles;
    assert r in t[p].relations + t[p].terms;
  }

  /** The name of a relation `r` of a principle `p` of a top-level language
      `l`, qualified against `p`, is `l.p.r`. */
  lemma LanguagePrinciplePath(t: Tree, l: NodeId, p: NodeId, r: NodeId)
    requires WellFormed(t) && l < |t| && t[l].kind == Language && t[l].parent == Some(0)
    requires p in t[l].principles && p < |t| && r in t[p].relations && r < |t|
    ensures Join(PathOf(t, p) + [NameOf(t[r])]) == NameOf(t[l]) + "." + NameOf(t[p]) + "." + NameOf(t[r])
  {
    assert NodeWellFormed(t, l);
    assert NodeWellFormed(t, p);
    TopLevelQualifiedName(t, l, "");
    PathOfNamedChild(t, p, l);
    JoinThree(NameOf(t[l]), NameOf(t[p]), NameOf(t[r]));
    assert PathOf(t, p) + [NameOf(t[r])] == [NameOf(t[l]), NameOf(t[p]), NameOf(t[r])];
  }

  /** For a top-level principle `P`, the Model's list holds `P.r` for every
      relation `r` of `P`. */
  lemma ModelListQualifiesRelations(t: Tree, p: NodeId, r: NodeId)
    requires WellFormed(t) && p in t[0].elements && p < |t| && t[p].kind == Principle
    requires r in t[p].relations && r < |t|
    ensures Description(r, NameOf(t[p]) + "." + NameOf(t[r]), Relation) in Process(t, 0, [], 0).descs
  {
    assert NodeWellFormed(t, 0);
    assert p in ContainerElements(t, 0);
    assert NodeWellFormed(t, p);
    assert r in NamedElements(t, p);
    assert NodeWellFormed(t, r);
    TopLevelQualifiedName(t, p, NameOf(t[r]));
    NestedNamesQualified(t, 0, [], 0, p, r);
  }

  // ---------------------------------------------------------------------
  // `require` aliases
  // ---------------------------------------------------------------------

  /** Entry `k` of a list is an alias `<root>.<q>` for the required name
      `q`, pointing at the node the lookup of `q` finds in the frame followed
      by the entries before it. */
  ghost predicate IsAliasFor(t: Tree, frame: seq<Description>, r: seq<Description>, k: int,
                             root: string, q: string)
    requires 0 <= k < |r|
  {
    && r[k].name == root + "." + q
    && Lookup(frame + r[..k], q) == Some(r[k].node)
    && r[k].node < |t| && r[k].kind == t[r[k].node].kind
  }

  /** Entry `k` is an alias for one of the required names. */
  ghost predicate IsAlias(t: Tree, frame: seq<Description>, r: seq<Description>, k: int,
                          root: string, required: seq<string>)
    requires 0 <= k < |r|
  {
    exists q | q in required :: IsAliasFor(t, frame, r, k, root, q)
  }

  /** Every entry `Aliases` adds is an alias for one of the required names. */
  lemma {:induction false} AliasesSound(t: Tree, frame: seq<Description>, acc: seq<Description>,
                                        root: string, required: seq<string>, lo: int)
    requires NodesWithin(t, frame, lo) && NodesWithin(t, acc, lo)
    ensures forall k | |acc| <= k < |Aliases(t, frame, acc, root, required, lo)| ::
      IsAlias(t, frame, Aliases(t, frame, acc, root, required, lo), k, root, required)
    decreases |required|
  {
    var r := Aliases(t, frame, acc, root, required, lo);
    if |required| > 0 {
      var name := required[0];
      var next := AliasRound(t, frame, acc, root, name, lo);
      assert r == Aliases(t, frame, next, root, required[1..], lo);
      AliasesSound(t, frame, next, root, required[1..], lo);
      forall k | |acc| <= k < |r| ensures IsAlias(t, frame, r, k, root, required) {
        if k < |next| {
          FirstAliasSound(t, frame, acc, root, name, lo, r);
          assert name in required;
        } else {
          assert IsAlias(t, frame, r, k, root, required[1..]);
          var q :| q in required[1..] && IsAliasFor(t, frame, r, k, root, q);
          assert q in required;
        }
      }
    }
  }

  /** The entry a round adds, if any, is an alias for the round's name. */
  lemma FirstAliasSound(t: Tree, frame: seq<Description>, acc: seq<Description>, root: string,
                        name: string, lo: int, r: seq<Description>)
    requires NodesWithin(t, frame, lo) && NodesWithin(t, acc, lo)
    requires |AliasRound(t, frame, acc, root, name, lo)| <= |r|
    requires r[..|AliasRound(t, frame, acc, root, name, lo)|] == AliasRound(t, frame, acc, root, name, lo)
    ensures forall k | |acc| <= k < |AliasRound(t, frame, acc, root, name, lo)| ::
      IsAliasFor(t, frame, r, k, root, name)
  {
    var next := AliasRound(t, frame, acc, root, name, lo);
    if |next| > |acc| {
      var k := |acc|;
      assert r[..k] == acc by {
        assert r[..|next|][..k] == r[..k];
      }
      assert r[k] == next[k] by {
        assert r[..|next|][k] == r[k];
      }
    }
  }

  /** A required name already found in the frame followed by the list
      gathered so far gets its alias, pointing at the node found. */
  lemma {:induction false} AliasAdded(t: Tree, frame: seq<Description>, acc: seq<Description>,
                                      root: string, required: seq<string>, lo: int, q: string)
    requires NodesWithin(t, frame, lo) && NodesWithin(t, acc, lo)
    requires q in required && Lookup(frame + acc, q).Some?
    ensures Lookup(frame + acc, q).value < |t|
    ensures Describe(t, Lookup(frame + acc, q).value, root + "." + q)
            in Aliases(t, frame, acc, root, required, lo)
    decreases |required|
  {
    NodesWithinConcat(t, frame, acc, lo);
    LookupWithin(t, frame + acc, q, lo);
    var next := AliasRound(t, frame, acc, root, required[0], lo);
    var r := Aliases(t, frame, acc, root, required, lo);
    assert r == Aliases(t, frame, next, root, required[1..], lo);
    if required[0] == q {
      assert Describe(t, Lookup(frame + acc, q).value, root + "." + q) in next;
      InPrefix(r, next, Describe(t, Lookup(frame + acc, q).value, root + "." + q));
    } else {
      assert Lookup(frame + next, q) == Lookup(frame + acc, q) by {
        ExtendFrame(frame, acc, next);
        OuterFrameWins(frame + acc, next[|acc|..], q);
      }
      AliasAdded(t, frame, next, root, required[1..], lo, q);
    }
  }

  lemma SamePrefixSameSuffix(root: string, a: string, b: string)
    requires root + "." + a == root + "." + b
    ensures a == b
  {
    var n := |root| + 1;
    assert (root + "." + a)[n..] == a;
    assert (root + "." + b)[n..] == b;
  }

  /** An alias named `<root>.<q>` exists only for a name `q` that the lookup
      finds in the frame followed by the finished list; a required name that
      is not found there is skipped silently. */
  lemma AliasOnlyIfFound(t: Tree, frame: seq<Description>, acc: seq<Description>,
                         root: string, required: seq<string>, lo: int, q: string, k: nat)
    requires NodesWithin(t, frame, lo) && NodesWithin(t, acc, lo)
    requires |acc| <= k < |Aliases(t, frame, acc, root, required, lo)|
    requires Aliases(t, frame, acc, root, required, lo)[k].name == root + "." + q
    ensures q in required
    ensures Lookup(frame + Aliases(t, frame, acc, root, required, lo), q).Some?
  {
    var r := Aliases(t, frame, acc, root, required, lo);
    assert IsAlias(t, frame, r, k, root, required) by {
      AliasesSound(t, frame, acc, root, required, lo);
    }
    var q' :| q' in required && IsAliasFor(t, frame, r, k, root, q');
    assert q == q' by {
      SamePrefixSameSuffix(root, q, q');
    }
    assert Lookup(frame + r, q).Some? by {
      SplitAt(frame, r, k);
      OuterFrameWins(frame + r[..k], r[k..], q);
    }
  }

  lemma SplitAt<T>(frame: seq<T>, r: seq<T>, k: nat)
    requires k <= |r|
    ensures frame + r == (frame + r[..k]) + r[k..]
  {
    assert r == r[..k] + r[k..];
  }
  /** The round for a principle `e` that requires `q` adds the alias
      `<e>.<q>` for the node that `q` names in the frame followed by the list
      gathered before the round. */
  lemma NestAddsAlias(t: Tree, e: NodeId, frame: seq<Description>, lo: nat,
                      acc: seq<Description>, q: string)
    requires WellFormed(t) && lo < e < |t|
    requires NodesWithin(t, frame, lo) && NodesWithin(t, acc, lo)
    requires t[e].kind == Principle && q in t[e].required
    requires Lookup(frame + acc, q).Some?
    ensures Lookup(frame + acc, q).value < |t|
    ensures Describe(t, Lookup(frame + acc, q).value, NameOf(t[e]) + "." + q) in Nest(t, e, frame, lo, acc).descs
  {
    NodesWithinConcat(t, frame, acc, lo);
    LookupWithin(t, frame + acc, q, lo);
    var n := Lookup(frame + acc, q).value;
    var qa := QualifyAll(t, e, Process(t, e, frame + acc, lo).descs);
    var qualified := acc + qa;
    assert NodesWithin(t, qualified, lo) by {
      NodesWithinConcat(t, acc, qa, lo);
    }
    assert Lookup(frame + qualified, q) == Some(n) by {
      ExtendFrame(frame, acc, qualified);
      OuterFrameWins(frame + acc, qa, q);
    }
    assert Describe(t, n, NameOf(t[e]) + "." + q) in Aliases(t, frame, qualified, NameOf(t[e]), t[e].required, lo) by {
      AliasAdded(t, frame, qualified, NameOf(t[e]), t[e].required, lo, q);
    }
    NestOfPrinciple(t, e, frame, lo, acc);
  }

  /** A list that extends `acc`, put after the frame, is the frame followed
      by `acc` followed by the extension. */
  lemma ExtendFrame<T>(frame: seq<T>, acc: seq<T>, s: seq<T>)
    requires |acc| <= |s| && s[..|acc|] == acc
    ensures frame + s == (frame + acc) + s[|acc|..]
  {
    assert s == acc + s[|acc|..];
  }

  /** The round for a principle ends with its `require` aliases. */
  lemma NestOfPrinciple(t: Tree, e: NodeId, frame: seq<Description>, lo: nat, acc: seq<Description>)
    requires WellFormed(t) && lo < e < |t| && t[e].kind == Principle
    requires NodesWithin(t, frame, lo) && NodesWithin(t, acc, lo) && NodesWithin(t, frame + acc, lo)
    requires NodesWithin(t, acc + QualifyAll(t, e, Process(t, e, frame + acc, lo).descs), lo)
    ensures Nest(t, e, frame, lo, acc).descs
         == Aliases(t, frame, acc + QualifyAll(t, e, Process(t, e, frame + acc, lo).descs),
                    NameOf(t[e]), t[e].required, lo)
  {
  }

  /** The loop over container elements adds `<e>.<q>` for every principle
      `e` among them that requires `q`, once `q` is visible in the frame
      followed by the list at the loop's start; later entries cannot hide
      it, since the lookup takes the first match. */
  lemma {:induction false} NestedAddsAlias(t: Tree, c: NodeId, frame: seq<Description>, lo: nat,
                                           elems: seq<NodeId>, acc: seq<Description>,
                                           log: seq<Append>, e: NodeId, q: string)
    requires WellFormed(t) && lo <= c < |t|
    requires NodesWithin(t, frame, lo) && NodesWithin(t, acc, lo) && KeysAbove(t, log, lo)
    requires forall j | 0 <= j < |elems| :: c < elems[j] < |t|
    requires e in elems && e < |t| && t[e].kind == Principle && q in t[e].required
    requires Lookup(frame + acc, q).Some?
    ensures Lookup(frame + acc, q).value < |t|
    ensures Describe(t, Lookup(frame + acc, q).value, NameOf(t[e]) + "." + q)
            in ProcessNested(t, c, frame, lo, elems, acc, log).descs
    decreases |elems|
  {
    var n := Lookup(frame + acc, q).value;
    assert n < |t| by {
      NodesWithinConcat(t, frame, acc, lo);
      LookupWithin(t, frame + acc, q, lo);
    }
    var d := Describe(t, n, NameOf(t[e]) + "." + q);
    var step := Nest(t, elems[0], frame, lo, acc);
    assert KeysAbove(t, log + step.log, lo) by {
      KeysAboveConcat(t, log, step.log, lo);
    }
    var rest := ProcessNested(t, c, frame, lo, elems[1..], step.descs, log + step.log);
    if elems[0] == e {
      assert d in step.descs by {
        NestAddsAlias(t, e, frame, lo, acc, q);
      }
      InPrefix(rest.descs, step.descs, d);
    } else {
      assert Lookup(frame + step.descs, q) == Some(n) by {
        ExtendFrame(frame, acc, step.descs);
        OuterFrameWins(frame + acc, step.descs[|acc|..], q);
      }
      NestedAddsAlias(t, c, frame, lo, elems[1..], step.descs, log + step.log, e, q);
    }
    assert ProcessNested(t, c, frame, lo, elems, acc, log) == rest;
  }

  /** What a prefix holds, the whole sequence holds. */
  lemma InPrefix<T>(s: seq<T>, head: seq<T>, d: T)
    requires |head| <= |s| && s[..|head|] == head && d in head
    ensures d in s
  {
    var j :| 0 <= j < |head| && head[j] == d;
    assert s[j] == s[..|head|][j];
  }

  /** `require q` in a principle `e` nested in `c` makes `<e>.<q>` visible in
      the list of `c`, pointing at the node `n` that `q` names in the frame
      followed by the head of the list (the spliced relations and the bare
      names of the named elements of `c`). */
  lemma RequireAddsAlias(t: Tree, c: NodeId, frame: seq<Description>, lo: nat, e: NodeId, q: string, n: NodeId)
    requires WellFormed(t) && lo <= c < |t| && NodesWithin(t, frame, lo)
    requires e in ContainerElements(t, c) && e < |t| && t[e].kind == Principle && q in t[e].required
    requires Lookup(frame + ListHead(t, c, frame, lo), q) == Some(n)
    ensures n < |t| && Describe(t, n, NameOf(t[e]) + "." + q) in Process(t, c, frame, lo).descs
  {
    RequireAddsAliasInLoop(t, c, frame, lo, e, q, n);
    ProcessIsNested(t, c, frame, lo);
  }

  /** The loop part of `RequireAddsAlias`, from the head of the list. */
  lemma RequireAddsAliasInLoop(t: Tree, c: NodeId, frame: seq<Description>, lo: nat, e: NodeId, q: string, n: NodeId)
    requires WellFormed(t) && lo <= c < |t| && NodesWithin(t, frame, lo)
    requires e in ContainerElements(t, c) && e < |t| && t[e].kind == Principle && q in t[e].required
    requires Lookup(frame + ListHead(t, c, frame, lo), q) == Some(n)
    ensures n < |t|
    ensures Describe(t, n, NameOf(t[e]) + "." + q)
            in ProcessNested(t, c, frame, lo, ContainerElements(t, c), ListHead(t, c, frame, lo),
                             Splice(t, c, frame, lo).log).descs
  {
    NestedAddsAlias(t, c, frame, lo, ContainerElements(t, c), ListHead(t, c, frame, lo),
                    Splice(t, c, frame, lo).log, e, q);
  }
}

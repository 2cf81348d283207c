/** The loop of `processContainer` over its container elements, round by
    round: what the list holds when the round of the `i`-th element starts,
    the frame that round hands to the nested call, and what earlier rounds
    leave visible to later ones. */
module ScopeRounds {
  import opened SlartiAst
  import opened Descriptions
  import opened ScopeComputation
  import opened ScopeProperties

  /** The list of `c` and the table's history as they stand when the round
      of the `i`-th container element starts: the head, then the rounds of
      the elements before it. */
  function Gathered(t: Tree, c: NodeId, frame: seq<Description>, ghost lo: nat, i: nat): (r: Outcome)
    requires WellFormed(t) && lo <= c < |t| && NodesWithin(t, frame, lo)
    requires i <= |ContainerElements(t, c)|
    ensures NodesWithin(t, r.descs, lo) && KeysAbove(t, r.log, lo)
  {
    var elems := ContainerElements(t, c);
    assert forall j | 0 <= j < |elems[..i]| :: c < elems[..i][j] < |t| by {
      assert ChildrenOf(t, c, elems);
    }
    ProcessNested(t, c, frame, lo, elems[..i], ListHead(t, c, frame, lo), Splice(t, c, frame, lo).log)
  }

  /** The frame `[...frame, ...localDescriptions]` that the round of the
      `i`-th container element passes to its nested call. */
  function RoundFrame(t: Tree, c: NodeId, frame: seq<Description>, ghost lo: nat, i: nat): (r: seq<Description>)
    requires WellFormed(t) && lo <= c < |t| && NodesWithin(t, frame, lo)
    requires i < |ContainerElements(t, c)|
    ensures NodesWithin(t, r, lo)
  {
    NodesWithinConcat(t, frame, Gathered(t, c, frame, lo, i).descs, lo);
    frame + Gathered(t, c, frame, lo, i).descs
  }

  /** The loop over the first `k` elements, then over the rest from where
      it left off, is the whole loop. */
  lemma {:induction false} NestedSplit(t: Tree, c: NodeId, frame: seq<Description>, lo: nat,
                                       elems: seq<NodeId>, acc: seq<Description>, log: seq<Append>, k: nat)
    requires WellFormed(t) && lo <= c < |t|
    requires NodesWithin(t, frame, lo) && NodesWithin(t, acc, lo) && KeysAbove(t, log, lo)
    requires forall j | 0 <= j < |elems| :: c < elems[j] < |t|
    requires k <= |elems|
    ensures forall j | 0 <= j < |elems[..k]| :: c < elems[..k][j] < |t|
    ensures ProcessNested(t, c, frame, lo, elems, acc, log)
         == ProcessNested(t, c, frame, lo, elems[k..],
                          ProcessNested(t, c, frame, lo, elems[..k], acc, log).descs,
                          ProcessNested(t, c, frame, lo, elems[..k], acc, log).log)
    decreases k
  {
    PrefixWithin(c, |t|, elems, k);
    if k == 0 {
      assert elems[0..] == elems;
      assert elems[..0] == [];
    } else {
      var step := Nest(t, elems[0], frame, lo, acc);
      NestedUnfold(t, c, frame, lo, elems, acc, log);
      NestedSplit(t, c, frame, lo, elems[1..], step.descs, log + step.log, k - 1);
      assert elems[1..][k - 1..] == elems[k..];
      PrefixUnfold(t, c, frame, lo, elems, acc, log, k);
    }
  }

  lemma PrefixWithin(c: nat, n: nat, elems: seq<NodeId>, k: nat)
    requires forall j | 0 <= j < |elems| :: c < elems[j] < n
    requires k <= |elems|
    ensures forall j | 0 <= j < |elems[..k]| :: c < elems[..k][j] < n
  {
  }

  /** The loop over a non-empty prefix, one round unfolded. */
  lemma PrefixUnfold(t: Tree, c: NodeId, frame: seq<Description>, lo: nat,
                     elems: seq<NodeId>, acc: seq<Description>, log: seq<Append>, k: nat)
    requires WellFormed(t) && lo <= c < |t|
    requires NodesWithin(t, frame, lo) && NodesWithin(t, acc, lo) && KeysAbove(t, log, lo)
    requires forall j | 0 <= j < |elems| :: c < elems[j] < |t|
    requires 0 < k <= |elems|
    ensures forall j | 0 <= j < |elems[..k]| :: c < elems[..k][j] < |t|
    ensures KeysAbove(t, log + Nest(t, elems[0], frame, lo, acc).log, lo)
    ensures ProcessNested(t, c, frame, lo, elems[..k], acc, log)
         == ProcessNested(t, c, frame, lo, elems[1..][..k - 1], Nest(t, elems[0], frame, lo, acc).descs,
                          log + Nest(t, elems[0], frame, lo, acc).log)
  {
    PrefixWithin(c, |t|, elems, k);
    NestedUnfold(t, c, frame, lo, elems[..k], acc, log);
    SliceShift(elems, k);
  }

  lemma SliceShift<T>(s: seq<T>, k: nat)
    requires 0 < k <= |s|
    ensures s[..k][0] == s[0] && s[..k][1..] == s[1..][..k - 1]
  {
  }

  /** Round `i` takes the list where round `i - 1` left it. */
  lemma GatheredStep(t: Tree, c: NodeId, frame: seq<Description>, lo: nat, i: nat)
    requires WellFormed(t) && lo <= c < |t| && NodesWithin(t, frame, lo)
    requires i < |ContainerElements(t, c)|
    ensures lo < ContainerElements(t, c)[i] < |t|
    ensures Gathered(t, c, frame, lo, i + 1)
         == Outcome(Nest(t, ContainerElements(t, c)[i], frame, lo, Gathered(t, c, frame, lo, i).descs).descs,
                    Gathered(t, c, frame, lo, i).log
                    + Nest(t, ContainerElements(t, c)[i], frame, lo, Gathered(t, c, frame, lo, i).descs).log)
  {
    var elems := ContainerElements(t, c);
    assert ChildrenOf(t, c, elems);
    NestedSnoc(t, c, frame, lo, elems, ListHead(t, c, frame, lo), Splice(t, c, frame, lo).log, i);
  }

  /** The loop over the first `k + 1` elements is the loop over the first
      `k`, then one round. */
  lemma NestedSnoc(t: Tree, c: NodeId, frame: seq<Description>, lo: nat,
                   elems: seq<NodeId>, acc: seq<Description>, log: seq<Append>, k: nat)
    requires WellFormed(t) && lo <= c < |t|
    requires NodesWithin(t, frame, lo) && NodesWithin(t, acc, lo) && KeysAbove(t, log, lo)
    requires forall j | 0 <= j < |elems| :: c < elems[j] < |t|
    requires k < |elems|
    ensures ProcessNested(t, c, frame, lo, elems[..k + 1], acc, log)
         == Outcome(Nest(t, elems[k], frame, lo, ProcessNested(t, c, frame, lo, elems[..k], acc, log).descs).descs,
                    ProcessNested(t, c, frame, lo, elems[..k], acc, log).log
                    + Nest(t, elems[k], frame, lo, ProcessNested(t, c, frame, lo, elems[..k], acc, log).descs).log)
  {
    PrefixWithin(c, |t|, elems, k);
    PrefixWithin(c, |t|, elems, k + 1);
    var g := ProcessNested(t, c, frame, lo, elems[..k], acc, log);
    NestedSplit(t, c, frame, lo, elems[..k + 1], acc, log, k);
    assert elems[..k + 1][..k] == elems[..k];
    assert elems[..k + 1][k..] == [elems[k]];
    NestedSingle(t, c, frame, lo, elems[k], g.descs, g.log);
  }

  /** The loop over one element is one round. */
  lemma NestedSingle(t: Tree, c: NodeId, frame: seq<Description>, lo: nat,
                     e: NodeId, acc: seq<Description>, log: seq<Append>)
    requires WellFormed(t) && lo <= c < e < |t|
    requires NodesWithin(t, frame, lo) && NodesWithin(t, acc, lo) && KeysAbove(t, log, lo)
    ensures ProcessNested(t, c, frame, lo, [e], acc, log)
         == Outcome(Nest(t, e, frame, lo, acc).descs, log + Nest(t, e, frame, lo, acc).log)
  {
    NestedUnfold(t, c, frame, lo, [e], acc, log);
    assert [e][1..] == [];
  }

  /** After the last round the list is the container's list. */
  lemma GatheredAll(t: Tree, c: NodeId, frame: seq<Description>, lo: nat)
    requires WellFormed(t) && lo <= c < |t| && NodesWithin(t, frame, lo)
    ensures Process(t, c, frame, lo).descs == Gathered(t, c, frame, lo, |ContainerElements(t, c)|).descs
  {
    var elems := ContainerElements(t, c);
    assert elems[..|elems|] == elems;
    ProcessIsNested(t, c, frame, lo);
  }

  /** Rounds only append: the list at the start of round `i` opens the list
      at the start of every later round. */
  lemma GatheredGrows(t: Tree, c: NodeId, frame: seq<Description>, lo: nat, i: nat, j: nat)
    requires WellFormed(t) && lo <= c < |t| && NodesWithin(t, frame, lo)
    requires i <= j <= |ContainerElements(t, c)|
    ensures |Gathered(t, c, frame, lo, i).descs| <= |Gathered(t, c, frame, lo, j).descs|
    ensures Gathered(t, c, frame, lo, j).descs[..|Gathered(t, c, frame, lo, i).descs|]
         == Gathered(t, c, frame, lo, i).descs
  {
    var elems := ContainerElements(t, c);
    assert ChildrenOf(t, c, elems);
    NestedSplit(t, c, frame, lo, elems[..j], ListHead(t, c, frame, lo), Splice(t, c, frame, lo).log, i);
    assert elems[..j][..i] == elems[..i];
  }

  /** What the list holds at the start of some round stays in the
      container's list. */
  lemma GatheredInList(t: Tree, c: NodeId, frame: seq<Description>, lo: nat, i: nat, d: Description)
    requires WellFormed(t) && lo <= c < |t| && NodesWithin(t, frame, lo)
    requires i <= |ContainerElements(t, c)| && d in Gathered(t, c, frame, lo, i).descs
    ensures d in Process(t, c, frame, lo).descs
  {
    var last := |ContainerElements(t, c)|;
    GatheredGrows(t, c, frame, lo, i, last);
    InPrefix(Gathered(t, c, frame, lo, last).descs, Gathered(t, c, frame, lo, i).descs, d);
    GatheredAll(t, c, frame, lo);
  }

  /** Round `i` appends the list of its element, computed in `RoundFrame`
      and re-qualified against the element, before any alias. */
  lemma RoundOpensWithNested(t: Tree, c: NodeId, frame: seq<Description>, lo: nat, i: nat)
    requires WellFormed(t) && lo <= c < |t| && NodesWithin(t, frame, lo)
    requires i < |ContainerElements(t, c)|
    ensures lo < ContainerElements(t, c)[i] < |t|
    ensures var q := Gathered(t, c, frame, lo, i).descs
                     + QualifyAll(t, ContainerElements(t, c)[i],
                                  Process(t, ContainerElements(t, c)[i], RoundFrame(t, c, frame, lo, i), lo).descs);
      |q| <= |Gathered(t, c, frame, lo, i + 1).descs| && Gathered(t, c, frame, lo, i + 1).descs[..|q|] == q
  {
    var g := Gathered(t, c, frame, lo, i).descs;
    GatheredStep(t, c, frame, lo, i);
    NodesWithinConcat(t, frame, g, lo);
    NestOpensWithQualified(t, ContainerElements(t, c)[i], frame, lo, g);
  }

  /** `require q` in the principle of round `i` adds `<principle>.<q>` for
      the node `n` that `q` resolves to in that round's frame, whether `q`
      is a name of the head or one an earlier round added (a qualified name,
      or another principle's alias). */
  lemma RequireAddsAliasInRound(t: Tree, c: NodeId, frame: seq<Description>, lo: nat, i: nat,
                                q: string, n: NodeId)
    requires WellFormed(t) && lo <= c < |t| && NodesWithin(t, frame, lo)
    requires i < |ContainerElements(t, c)|
    requires ContainerElements(t, c)[i] < |t| && t[ContainerElements(t, c)[i]].kind == Principle
    requires q in t[ContainerElements(t, c)[i]].required
    requires Lookup(RoundFrame(t, c, frame, lo, i), q) == Some(n)
    ensures n < |t|
    ensures Describe(t, n, NameOf(t[ContainerElements(t, c)[i]]) + "." + q) in Gathered(t, c, frame, lo, i + 1).descs
    ensures Describe(t, n, NameOf(t[ContainerElements(t, c)[i]]) + "." + q) in Process(t, c, frame, lo).descs
  {
    var e := ContainerElements(t, c)[i];
    var g := Gathered(t, c, frame, lo, i).descs;
    GatheredStep(t, c, frame, lo, i);
    NestAddsAlias(t, e, frame, lo, g, q);
    GatheredInList(t, c, frame, lo, i + 1, Describe(t, n, NameOf(t[e]) + "." + q));
  }

  /** The alias an earlier principle sibling adds is in the frame of every
      later round, so that a later `apply <principle>.<q>` can find it. */
  lemma SiblingAliasInFrame(t: Tree, c: NodeId, frame: seq<Description>, lo: nat, j: nat, i: nat,
                            q: string, n: NodeId)
    requires WellFormed(t) && lo <= c < |t| && NodesWithin(t, frame, lo)
    requires j < i < |ContainerElements(t, c)|
    requires ContainerElements(t, c)[j] < |t| && t[ContainerElements(t, c)[j]].kind == Principle
    requires q in t[ContainerElements(t, c)[j]].required
    requires Lookup(RoundFrame(t, c, frame, lo, j), q) == Some(n)
    ensures n < |t|
    ensures Describe(t, n, NameOf(t[ContainerElements(t, c)[j]]) + "." + q) in RoundFrame(t, c, frame, lo, i)
  {
    RequireAddsAliasInRound(t, c, frame, lo, j, q, n);
    GatheredInLaterFrame(t, c, frame, lo, j + 1, i,
                         Describe(t, n, NameOf(t[ContainerElements(t, c)[j]]) + "." + q));
  }

  /** What the list holds at the start of round `j` is in the frame of every
      round from `j` on. */
  lemma GatheredInLaterFrame(t: Tree, c: NodeId, frame: seq<Description>, lo: nat, j: nat, i: nat,
                             d: Description)
    requires WellFormed(t) && lo <= c < |t| && NodesWithin(t, frame, lo)
    requires j <= i < |ContainerElements(t, c)| && d in Gathered(t, c, frame, lo, j).descs
    ensures d in RoundFrame(t, c, frame, lo, i)
  {
    GatheredGrows(t, c, frame, lo, j, i);
    InPrefix(Gathered(t, c, frame, lo, i).descs, Gathered(t, c, frame, lo, j).descs, d);
    InSuffix(frame, Gathered(t, c, frame, lo, i).descs, d);
  }

  lemma InSuffix<T>(a: seq<T>, b: seq<T>, d: T)
    requires d in b
    ensures d in a + b
  {
    var k :| 0 <= k < |b| && b[k] == d;
    assert (a + b)[|a| + k] == d;
  }

  /** A container that is not an `apply` and has neither named nor container
      elements has an empty list. */
  lemma EmptyContainerList(t: Tree, c: NodeId, frame: seq<Description>, lo: nat)
    requires WellFormed(t) && lo <= c < |t| && NodesWithin(t, frame, lo)
    requires t[c].kind != Apply && NamedElements(t, c) == [] && ContainerElements(t, c) == []
    ensures Process(t, c, frame, lo).descs == []
  {
    assert Bare(t, []) == [];
  }

  /** A round whose nested list is empty adds nothing but, for a principle,
      its `require` aliases. */
  lemma NestOfEmptyList(t: Tree, e: NodeId, frame: seq<Description>, lo: nat, acc: seq<Description>)
    requires WellFormed(t) && lo < e < |t|
    requires NodesWithin(t, frame, lo) && NodesWithin(t, acc, lo) && NodesWithin(t, frame + acc, lo)
    requires Process(t, e, frame + acc, lo).descs == []
    ensures Nest(t, e, frame, lo, acc).descs
         == if t[e].kind == Principle then Aliases(t, frame, acc, NameOf(t[e]), t[e].required, lo) else acc
  {
    assert QualifyAll(t, e, []) == [];
    assert acc + [] == acc;
  }

  /** The round of a principle that requires nothing appends its nested list,
      re-qualified, and nothing else. */
  lemma NestOfPrincipleWithoutRequires(t: Tree, e: NodeId, frame: seq<Description>, lo: nat,
                                       acc: seq<Description>)
    requires WellFormed(t) && lo < e < |t| && t[e].kind == Principle && t[e].required == []
    requires NodesWithin(t, frame, lo) && NodesWithin(t, acc, lo) && NodesWithin(t, frame + acc, lo)
    ensures Nest(t, e, frame, lo, acc).descs == acc + QualifyAll(t, e, Process(t, e, frame + acc, lo).descs)
  {
  }

  /** A round for an element that is not a principle and whose nested list
      is empty leaves the list as it is. */
  lemma QuietRound(t: Tree, c: NodeId, frame: seq<Description>, lo: nat, i: nat, e: NodeId)
    requires WellFormed(t) && lo <= c < e < |t| && NodesWithin(t, frame, lo)
    requires i < |ContainerElements(t, c)| && ContainerElements(t, c)[i] == e && t[e].kind != Principle
    requires Process(t, e, RoundFrame(t, c, frame, lo, i), lo).descs == []
    ensures Gathered(t, c, frame, lo, i + 1).descs == Gathered(t, c, frame, lo, i).descs
  {
    GatheredStep(t, c, frame, lo, i);
    var g := Gathered(t, c, frame, lo, i).descs;
    NodesWithinConcat(t, frame, g, lo);
    NestOfEmptyList(t, e, frame, lo, g);
  }

  /** A round for a principle: its nested list, computed in the round's
      frame and re-qualified, then its `require` aliases. */
  lemma PrincipleRound(t: Tree, c: NodeId, frame: seq<Description>, lo: nat, i: nat,
                       nested: seq<Description>)
    requires WellFormed(t) && lo <= c < |t| && NodesWithin(t, frame, lo)
    requires i < |ContainerElements(t, c)| && t[ContainerElements(t, c)[i]].kind == Principle
    requires Process(t, ContainerElements(t, c)[i], RoundFrame(t, c, frame, lo, i), lo).descs == nested
    ensures NodesWithin(t, Gathered(t, c, frame, lo, i).descs + QualifyAll(t, ContainerElements(t, c)[i], nested), lo)
    ensures Gathered(t, c, frame, lo, i + 1).descs
         == Aliases(t, frame, Gathered(t, c, frame, lo, i).descs + QualifyAll(t, ContainerElements(t, c)[i], nested),
                    NameOf(t[ContainerElements(t, c)[i]]), t[ContainerElements(t, c)[i]].required, lo)
  {
    GatheredStep(t, c, frame, lo, i);
    var e := ContainerElements(t, c)[i];
    var g := Gathered(t, c, frame, lo, i).descs;
    NodesWithinConcat(t, frame, g, lo);
    NodesWithinConcat(t, g, QualifyAll(t, e, nested), lo);
    NestOfPrinciple(t, e, frame, lo, g);
  }

  /** Before the first round the list is the head. */
  lemma GatheredZero(t: Tree, c: NodeId, frame: seq<Description>, lo: nat)
    requires WellFormed(t) && lo <= c < |t| && NodesWithin(t, frame, lo)
    ensures Gathered(t, c, frame, lo, 0).descs == ListHead(t, c, frame, lo)
  {
    assert ContainerElements(t, c)[..0] == [];
  }

  /** The first round's frame is the frame followed by the head. */
  lemma FirstRoundFrame(t: Tree, c: NodeId, frame: seq<Description>, lo: nat)
    requires WellFormed(t) && lo <= c < |t| && NodesWithin(t, frame, lo)
    requires 0 < |ContainerElements(t, c)|
    ensures RoundFrame(t, c, frame, lo, 0) == frame + ListHead(t, c, frame, lo)
  {
    GatheredZero(t, c, frame, lo);
  }

  /** The round of an element that is neither a principle nor an `apply`
      and has no elements of its own leaves the list as it is. */
  lemma ChildlessRound(t: Tree, c: NodeId, frame: seq<Description>, lo: nat, i: nat, e: NodeId)
    requires WellFormed(t) && lo <= c < e < |t| && NodesWithin(t, frame, lo)
    requires i < |ContainerElements(t, c)| && ContainerElements(t, c)[i] == e
    requires t[e].kind != Principle && t[e].kind != Apply
    requires NamedElements(t, e) == [] && ContainerElements(t, e) == []
    ensures Gathered(t, c, frame, lo, i + 1).descs == Gathered(t, c, frame, lo, i).descs
  {
    EmptyContainerList(t, e, RoundFrame(t, c, frame, lo, i), lo);
    QuietRound(t, c, frame, lo, i, e);
  }

  /** The round of a principle with no elements of its own adds its
      `require` aliases and nothing else. */
  lemma ChildlessPrincipleRound(t: Tree, c: NodeId, frame: seq<Description>, lo: nat, i: nat, e: NodeId)
    requires WellFormed(t) && lo <= c < e < |t| && NodesWithin(t, frame, lo)
    requires i < |ContainerElements(t, c)| && ContainerElements(t, c)[i] == e
    requires t[e].kind == Principle && NamedElements(t, e) == [] && ContainerElements(t, e) == []
    ensures Gathered(t, c, frame, lo, i + 1).descs
         == Aliases(t, frame, Gathered(t, c, frame, lo, i).descs, NameOf(t[e]), t[e].required, lo)
  {
    EmptyContainerList(t, e, RoundFrame(t, c, frame, lo, i), lo);
    PrincipleRound(t, c, frame, lo, i, []);
    assert Gathered(t, c, frame, lo, i).descs + QualifyAll(t, e, []) == Gathered(t, c, frame, lo, i).descs;
  }

  /** A container whose one container element is childless, neither a
      principle nor an `apply`, has its head as its list. */
  lemma OneQuietElement(t: Tree, c: NodeId, frame: seq<Description>, lo: nat, e: NodeId)
    requires WellFormed(t) && lo <= c < e < |t| && NodesWithin(t, frame, lo)
    requires ContainerElements(t, c) == [e]
    requires t[e].kind != Principle && t[e].kind != Apply
    requires NamedElements(t, e) == [] && ContainerElements(t, e) == []
    ensures Process(t, c, frame, lo).descs == ListHead(t, c, frame, lo)
  {
    var head := ListHead(t, c, frame, lo);
    ProcessIsNested(t, c, frame, lo);
    NestedSingle(t, c, frame, lo, e, head, Splice(t, c, frame, lo).log);
    NodesWithinConcat(t, frame, head, lo);
    EmptyContainerList(t, e, frame + head, lo);
    NestOfEmptyList(t, e, frame, lo, head);
  }
}

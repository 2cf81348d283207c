/** Name descriptions: the entries of a scope, and the first-match lookup
    over an ordered list of them. */
module Descriptions {
  import opened SlartiAst

  /** An `AstNodeDescription`: the node it points at, the name under which
      it is visible, and the node's `$type`. */
  datatype Description = Description(node: NodeId, name: string, kind: Kind)

  /** The description `createDescription(node, name)` builds. */
  function Describe(t: Tree, node: NodeId, name: string): (d: Description)
    requires node < |t|
    ensures d.node == node && d.name == name && d.kind == t[node].kind
  {
    Description(node, name, t[node].kind)
  }

  /** The result of `lookupNode(scope, name)`: the node of the first
      description, in list order, whose name equals `name`; `None` exactly
      when no description has that name. */
  function Lookup(scope: seq<Description>, name: string): (r: Option<NodeId>)
    ensures r.None? <==> forall i | 0 <= i < |scope| :: scope[i].name != name
    ensures r.Some? ==> exists i | 0 <= i < |scope| ::
      && scope[i].name == name && scope[i].node == r.value
      && forall j | 0 <= j < i :: scope[j].name != name
  {
    if |scope| == 0 then None
    else if scope[0].name == name then Some(scope[0].node)
    else
      var r := Lookup(scope[1..], name);
      assert forall i | 1 <= i < |scope| :: scope[i] == scope[1..][i - 1];
      r
  }

  /** `lookupNode`: a linear scan with an early return. */
  method LookupNode(scope: seq<Description>, name: string) returns (r: Option<NodeId>)
    ensures r == Lookup(scope, name)
  {
    for i := 0 to |scope|
      invariant Lookup(scope, name) == Lookup(scope[i..], name)
    {
      assert scope[i..][1..] == scope[i + 1..];
      if name == scope[i].name {
        return Some(scope[i].node);
      }
    }
    return None;
  }

  /** Extending a scope at its end never changes a lookup that already
      succeeds: an outer-frame entry placed before the local ones wins a
      name clash. */
  lemma {:induction false} OuterFrameWins(outer: seq<Description>, inner: seq<Description>, name: string)
    requires Lookup(outer, name).Some?
    ensures Lookup(outer + inner, name) == Lookup(outer, name)
    decreases |outer|
  {
    if outer[0].name != name {
      assert (outer + inner)[1..] == outer[1..] + inner;
      OuterFrameWins(outer[1..], inner, name);
    }
  }

  /** A lookup that fails on the whole scope fails on every prefix of it. */
  lemma {:induction false} LookupMissesPrefix(scope: seq<Description>, k: nat, name: string)
    requires k <= |scope| && Lookup(scope, name).None?
    ensures Lookup(scope[..k], name).None?
  {
    forall i | 0 <= i < k ensures scope[..k][i].name != name {
      assert scope[..k][i] == scope[i];
    }
  }

  /** Entries of other names placed in front of a scope do not change a
      lookup in it. */
  lemma {:induction false} LookupPastPrefix(prefix: seq<Description>, scope: seq<Description>, name: string)
    requires forall k | 0 <= k < |prefix| :: prefix[k].name != name
    ensures Lookup(prefix + scope, name) == Lookup(scope, name)
    decreases |prefix|
  {
    if |prefix| == 0 {
      assert prefix + scope == scope;
    } else {
      assert (prefix + scope)[0] == prefix[0];
      assert (prefix + scope)[1..] == prefix[1..] + scope;
      assert forall k | 0 <= k < |prefix[1..]| :: prefix[1..][k] == prefix[k + 1];
      LookupPastPrefix(prefix[1..], scope, name);
    }
  }

  /** Every node named by a description in the list lies in `(lo, |t|)`. */
  predicate NodesWithin(t: Tree, ds: seq<Description>, lo: int) {
    forall j | 0 <= j < |ds| :: lo < ds[j].node < |t|
  }

  lemma NodesWithinConcat(t: Tree, a: seq<Description>, b: seq<Description>, lo: int)
    requires NodesWithin(t, a, lo) && NodesWithin(t, b, lo)
    ensures NodesWithin(t, a + b, lo)
  {
    forall j | 0 <= j < |a + b| ensures lo < (a + b)[j].node < |t| {
      if j >= |a| { assert (a + b)[j] == b[j - |a|]; }
    }
  }

  /** A node found in a scope is one the scope names. */
  lemma LookupWithin(t: Tree, scope: seq<Description>, name: string, lo: int)
    requires NodesWithin(t, scope, lo) && Lookup(scope, name).Some?
    ensures lo < Lookup(scope, name).value < |t|
  {
    var i :| 0 <= i < |scope| && scope[i].name == name && scope[i].node == Lookup(scope, name).value;
  }
}

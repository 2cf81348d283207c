/** Dotted names: `getPath` walks the `$container` chain upwards and
    `getQualifiedName` joins the collected segments with '.'. */
module QualifiedNames {
  import opened SlartiAst

  /** `Array.prototype.join('.')`. */
  function Join(segments: seq<string>): string {
    if |segments| == 0 then ""
    else if |segments| == 1 then segments[0]
    else segments[0] + "." + Join(segments[1..])
  }

  /** Splitting a string at every '.', the inverse of `Join` on segments
      that contain no dot. */
  function Split(s: string): (r: seq<string>)
    ensures |r| > 0
  {
    if |s| == 0 then [""]
    else if s[0] == '.' then [""] + Split(s[1..])
    else var rest := Split(s[1..]); [[s[0]] + rest[0]] + rest[1..]
  }

  predicate DotFree(s: string) {
    forall k | 0 <= k < |s| :: s[k] != '.'
  }

  predicate AllDotFree(segments: seq<string>) {
    forall k | 0 <= k < |segments| :: DotFree(segments[k])
  }

  /** The names of the named nodes on the chain from the root down to
      `node`, `node` included; unnamed nodes (the Model, an Apply)
      contribute nothing. */
  function PathOf(t: Tree, node: NodeId): seq<string>
    requires WellFormed(t) && node < |t|
    decreases node
  {
    assert NodeWellFormed(t, node);
    var above := match t[node].parent
      case Some(p) => PathOf(t, p)
      case None => [];
    if IsNamed(t, node) then above + [NameOf(t[node])] else above
  }

  /** What `getQualifiedName(node, name)` returns. */
  function QualifiedName(t: Tree, node: NodeId, name: string): string
    requires WellFormed(t) && node < |t|
  {
    Join(PathOf(t, node) + [name])
  }

  /** `getPath`: starts from `[name]` and, walking up from `node` itself,
      prepends the name of every named node until the root is passed. */
  method GetPath(t: Tree, node: NodeId, name: string) returns (path: seq<string>)
    requires WellFormed(t) && node < |t|
    ensures path == PathOf(t, node) + [name]
  {
    path := [name];
    var parent: Option<NodeId> := Some(node);
    while parent.Some?
      invariant parent.Some? ==> parent.value < |t|
      invariant (match parent case Some(p) => PathOf(t, p) case None => []) + path
                == PathOf(t, node) + [name]
      decreases match parent case Some(p) => p + 1 case None => 0
    {
      var p := parent.value;
      assert NodeWellFormed(t, p);
      if IsNamed(t, p) {
        path := [NameOf(t[p])] + path;
      }
      parent := t[p].parent;
    }
  }

  /** `getQualifiedName`. */
  method GetQualifiedName(t: Tree, node: NodeId, name: string) returns (qualified: string)
    requires WellFormed(t) && node < |t|
    ensures qualified == QualifiedName(t, node, name)
  {
    var path := GetPath(t, node, name);
    qualified := Join(path);
  }

  /** Splitting `prefix + "." + rest` at its dots gives the dot-free prefix
      segment followed by the segments of `rest`. */
  lemma {:induction false} SplitAfterSegment(prefix: string, rest: string)
    requires DotFree(prefix)
    ensures Split(prefix + "." + rest) == [prefix] + Split(rest)
    decreases |prefix|
  {
    if |prefix| == 0 {
      assert prefix + "." + rest == ['.'] + rest;
      assert (['.'] + rest)[1..] == rest;
    } else {
      var tail := prefix[1..];
      assert prefix + "." + rest == [prefix[0]] + (tail + "." + rest);
      assert ([prefix[0]] + (tail + "." + rest))[1..] == tail + "." + rest;
      SplitAfterSegment(tail, rest);
      assert [prefix[0]] + tail == prefix;
    }
  }

  /** A dot-free string is a single segment. */
  lemma {:induction false} SplitDotFree(s: string)
    requires DotFree(s)
    ensures Split(s) == [s]
    decreases |s|
  {
    if |s| > 0 {
      SplitDotFree(s[1..]);
      assert [s[0]] + s[1..] == s;
    }
  }

  /** Joining dot-free segments in front of a last segment and splitting the
      result again gives back those segments, then the last segment's own
      pieces. */
  lemma {:induction false} SplitJoin(segments: seq<string>, last: string)
    requires AllDotFree(segments)
    ensures Split(Join(segments + [last])) == segments + Split(last)
    decreases |segments|
  {
    if |segments| > 0 {
      var first := segments[0];
      var rest := segments[1..];
      var tail := Join(rest + [last]);
      assert Join(segments + [last]) == first + "." + tail by {
        assert segments + [last] == [first] + (rest + [last]);
        assert ([first] + (rest + [last]))[1..] == rest + [last];
      }
      assert Split(first + "." + tail) == [first] + Split(tail) by {
        assert DotFree(segments[0]);
        SplitAfterSegment(first, tail);
      }
      assert Split(tail) == rest + Split(last) by {
        SplitJoin(rest, last);
      }
      assert segments == [first] + rest;
    }
  }

  /** Every node name on the path is dot-free (the grammar's identifiers). */
  predicate NamesDotFree(t: Tree) {
    forall i | 0 <= i < |t| :: DotFree(NameOf(t[i]))
  }

  lemma {:induction false} PathDotFree(t: Tree, node: NodeId)
    requires WellFormed(t) && node < |t| && NamesDotFree(t)
    ensures AllDotFree(PathOf(t, node))
    decreases node
  {
    assert NodeWellFormed(t, node);
    if t[node].parent.Some? {
      PathDotFree(t, t[node].parent.value);
    }
  }

  /** The segments of a qualified name are the names of the named nodes from
      the root down to `node`, then the segments of `name`; in particular the
      last segment of `QualifiedName(t, node, name)` is `name` whenever
      `name` holds no dot. */
  lemma QualifiedNameSegments(t: Tree, node: NodeId, name: string)
    requires WellFormed(t) && node < |t| && NamesDotFree(t)
    ensures Split(QualifiedName(t, node, name)) == PathOf(t, node) + Split(name)
    ensures DotFree(name) ==>
      Split(QualifiedName(t, node, name))[|Split(QualifiedName(t, node, name))| - 1] == name
  {
    PathDotFree(t, node);
    SplitJoin(PathOf(t, node), name);
    if DotFree(name) {
      SplitDotFree(name);
    }
  }

  /** A named node directly under the (unnamed) root has the one-segment
      path holding its own name, so qualifying `name` against it gives
      `<its name>.<name>`. */
  lemma TopLevelQualifiedName(t: Tree, node: NodeId, name: string)
    requires WellFormed(t) && node < |t| && t[node].parent == Some(0) && IsNamed(t, node)
    ensures PathOf(t, node) == [NameOf(t[node])]
    ensures QualifiedName(t, node, name) == NameOf(t[node]) + "." + name
  {
    assert NodeWellFormed(t, 0);
    assert NodeWellFormed(t, node);
    assert PathOf(t, 0) == [];
    var segments := [NameOf(t[node])] + [name];
    assert segments[1..] == [name];
    assert Join(segments) == NameOf(t[node]) + "." + Join([name]);
  }
}

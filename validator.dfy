/** The custom validation checks of the Slarti language: token names start
    with a capital letter, relation names with a non-capital one.  A check
    reports through a validation acceptor; here it returns the diagnostics it
    would hand to the acceptor, in order. */
module SlartiValidator {
  import opened SlartiAst

  datatype Severity = Error | Warning | Info | Hint

  /** What `accept(severity, message, { node, property })` records. */
  datatype Diagnostic = Diagnostic(severity: Severity, message: string, node: NodeId, property: string)

  const TokenMessage: string := "Token name should start with a capital."
  const RelationMessage: string := "Relation name should start with a non-capital."

  predicate IsLower(c: char) { 'a' <= c <= 'z' }

  predicate IsUpper(c: char) { 'A' <= c <= 'Z' }

  /** `toUpperCase()` of a one-character string, on the ASCII letters. */
  function ToUpper(c: char): (u: char)
    ensures u != c <==> IsLower(c)
    ensures IsLower(c) ==> IsUpper(u) && ToLower(u) == c
  {
    if IsLower(c) then (c as int - 32) as char else c
  }

  /** `toLowerCase()` of a one-character string, on the ASCII letters. */
  function ToLower(c: char): (l: char)
    ensures l != c <==> IsUpper(c)
    ensures IsUpper(c) ==> IsLower(l) && (l as int - 32) as char == c
  {
    if IsUpper(c) then (c as int + 32) as char else c
  }

  /** The name starts with a lower-case letter. */
  predicate StartsLower(name: string) {
    |name| > 0 && IsLower(name[0])
  }

  /** The name starts with a capital letter. */
  predicate StartsUpper(name: string) {
    |name| > 0 && IsUpper(name[0])
  }

  /** `checkTokenStartsWithCapital`: an absent or empty name is skipped (it is
      falsy); otherwise one warning on the `name` property exactly when the
      first character is changed by upper-casing it, that is, when the name
      starts with a lower-case letter. */
  function CheckTokenStartsWithCapital(t: Tree, token: NodeId): (r: seq<Diagnostic>)
    requires token < |t| && t[token].kind == Token
    ensures |r| <= 1
    ensures r != [] <==> StartsLower(NameOf(t[token]))
    ensures forall d | d in r :: d == Diagnostic(Warning, TokenMessage, token, "name")
  {
    var name := NameOf(t[token]);
    if |name| > 0 && ToUpper(name[0]) != name[0]
    then [Diagnostic(Warning, TokenMessage, token, "name")]
    else []
  }

  /** `checkRelartionStartsWithNonCapital`: one warning on the `name`
      property exactly when the (non-empty) name starts with a capital
      letter. */
  function CheckRelationStartsWithNonCapital(t: Tree, rel: NodeId): (r: seq<Diagnostic>)
    requires rel < |t| && t[rel].kind == Relation
    ensures |r| <= 1
    ensures r != [] <==> StartsUpper(NameOf(t[rel]))
    ensures forall d | d in r :: d == Diagnostic(Warning, RelationMessage, rel, "name")
  {
    var name := NameOf(t[rel]);
    if |name| > 0 && ToLower(name[0]) != name[0]
    then [Diagnostic(Warning, RelationMessage, rel, "name")]
    else []
  }

  /** The checks of the registration table. */
  datatype Check = TokenStartsWithCapital | RelationStartsWithNonCapital

  /** The node kind a check is registered for. */
  function KindOf(check: Check): Kind {
    match check
    case TokenStartsWithCapital => Token
    case RelationStartsWithNonCapital => Relation
  }

  /** `registerValidationChecks`: the checks registered for a node kind.
      Tokens and relations get one check each, for their own kind; every
      other kind gets none. */
  function RegisteredChecks(k: Kind): (r: seq<Check>)
    ensures r != [] <==> k in {Token, Relation}
    ensures |r| <= 1
    ensures forall c | c in r :: KindOf(c) == k
  {
    match k
    case Token => [TokenStartsWithCapital]
    case Relation => [RelationStartsWithNonCapital]
    case _ => []
  }

  function RunCheck(t: Tree, node: NodeId, check: Check): seq<Diagnostic>
    requires node < |t| && t[node].kind == KindOf(check)
  {
    match check
    case TokenStartsWithCapital => CheckTokenStartsWithCapital(t, node)
    case RelationStartsWithNonCapital => CheckRelationStartsWithNonCapital(t, node)
  }

  /** The diagnostics the registered checks report on one node, in
      registration order. */
  function RunChecks(t: Tree, node: NodeId, checks: seq<Check>): seq<Diagnostic>
    requires node < |t| && forall c | c in checks :: KindOf(c) == t[node].kind
  {
    if |checks| == 0 then []
    else RunCheck(t, node, checks[0]) + RunChecks(t, node, checks[1..])
  }

  /** What validating one node reports: a warning on the node's `name`
      exactly when it is a token whose name starts with a lower-case letter
      or a relation whose name starts with a capital, and nothing for any
      other node. */
  function Validate(t: Tree, node: NodeId): (r: seq<Diagnostic>)
    requires node < |t|
    ensures |r| <= 1
    ensures r != [] <==>
      || (t[node].kind == Token && StartsLower(NameOf(t[node])))
      || (t[node].kind == Relation && StartsUpper(NameOf(t[node])))
    ensures forall d | d in r :: d.severity == Warning && d.node == node && d.property == "name"
  {
    var checks := RegisteredChecks(t[node].kind);
    assert RunChecks(t, node, checks) == if checks == [] then [] else RunCheck(t, node, checks[0]) by {
      if checks != [] {
        assert checks[1..] == [];
      }
    }
    RunChecks(t, node, checks)
  }

  /** A name that starts with neither letter case, such as a digit or an
      underscore, passes both checks; no name fails both. */
  lemma NoNameFailsBoth(t: Tree, token: NodeId, rel: NodeId)
    requires token < |t| && t[token].kind == Token
    requires rel < |t| && t[rel].kind == Relation
    requires NameOf(t[token]) == NameOf(t[rel])
    ensures CheckTokenStartsWithCapital(t, token) == [] || CheckRelationStartsWithNonCapital(t, rel) == []
  {
  }

  /** The token names of the validation scenarios. */
  lemma TokenScenarios(t: Tree, good: NodeId, bad: NodeId)
    requires good < |t| && t[good].kind == Token && t[good].name == Some("TestToken")
    requires bad < |t| && t[bad].kind == Token && t[bad].name == Some("testToken")
    ensures Validate(t, good) == []
    ensures Validate(t, bad) == [Diagnostic(Warning, TokenMessage, bad, "name")]
  {
    assert NameOf(t[good])[0] == 'T';
    assert NameOf(t[bad])[0] == 't';
    assert Validate(t, bad) == CheckTokenStartsWithCapital(t, bad);
  }

  /** The relation names of the validation scenarios. */
  lemma RelationScenarios(t: Tree, good: NodeId, bad: NodeId)
    requires good < |t| && t[good].kind == Relation && t[good].name == Some("test")
    requires bad < |t| && t[bad].kind == Relation && t[bad].name == Some("Test")
    ensures Validate(t, good) == []
    ensures Validate(t, bad) == [Diagnostic(Warning, RelationMessage, bad, "name")]
  {
    assert NameOf(t[good])[0] == 't';
    assert NameOf(t[bad])[0] == 'T';
    assert Validate(t, bad) == CheckRelationStartsWithNonCapital(t, bad);
  }
}

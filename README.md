# Slarti scope computation and validation, in Dafny

Slarti is a small modelling language built on Langium. A Slarti document is
a `Model` that holds languages, namespaces, tokens, principles (with
relations, terms, `apply` blocks and `require` clauses), specifications and
instances. This project models two parts of the language server:

* **Scope computation** (`SlartiScopeComputation`). For every container of
  a parsed document it builds the ordered list of name descriptions visible
  directly in that container. The list is built in this order:
  * the `Relation` descriptions of the principle an `apply` names, computed
    afresh from an empty frame;
  * one bare-name description per named element;
  * then, for each container element in order: its own list, re-qualified
    against it, and, when that element is a principle, one alias
    `<principle>.<required>` for each `require` whose name resolves in
    that round's frame (the outer frame followed by everything gathered
    so far, so a later sibling sees an earlier sibling's aliases).

  The pass records each list in a shared multimap keyed by the container.
  It also computes the exports of a document: its named top-level elements
  under their qualified names.
* **Validation** (`SlartiValidator`). Tokens must start with a capital
  letter and relations with a non-capital one. Each check is registered
  for its own node kind.

## How the model is built

* `ast.dfy` (`SlartiAst`) holds the parsed document as an arena:
  * a node is its index;
  * the `Model` is node 0;
  * each node records its `$container` (`parent`) and its child lists,
    grouped by grammar field;
  * a reference is held only as its reference text, which is all the scope
    computation reads.

  `WellFormed` states what the model assumes of a parse result: every
  child names its parent and each typed field holds nodes of its kind,
  as the parser guarantees; and every child has a larger index than its
  parent, which is how the arena is numbered (a pre-order numbering of
  the tree), not something the parser promises.
* `descriptions.dfy` (`Descriptions`) holds the description
  `(node, name, type)` and the first-match lookup `lookupNode`.
* `names.dfy` (`QualifiedNames`) holds `getPath` and `getQualifiedName`:
  * `GetPath` is the source's `while` loop;
  * `PathOf` and `Join` are its specification;
  * `Split` is the inverse of `Join`.
* `scopes.dfy` (`ScopeComputation`) is the pass written as functions:
  * `Process` returns a container's list together with the log of every
    `addAll` the call makes;
  * `Replay` applies such a log to a multimap.
* `scope_computation.dfy` (`SlartiScopeComputation`) is the pass as the
  source writes it, with the same loops. The multimap is a `ScopeTable`
  object that is only ever appended to. Each method is proved to return
  exactly what `Process` (or one of its parts) returns, and to leave the
  table equal to the replay of that part's log.
* `scope_properties.dfy` (`ScopeProperties`) proves what the pass
  promises, in terms of `Process`:
  * the table only grows;
  * the root's entry is the root's list;
  * the order in which a list is built;
  * exactly what an `apply` splices in;
  * nested names are qualified by the path of the nested container;
  * the `require` aliases are sound, and every alias whose name resolves is
    added: resolving in the frame followed by the list's head
    (`RequireAddsAlias`), and, in general, resolving in the frame of the
    element's own round (`ScopeRounds.RequireAddsAliasInRound`).
* `rounds.dfy` (`ScopeRounds`) follows the loop over container elements
  round by round: what the list holds when each round starts, the frame
  each nested call gets, and that an alias added by one round is in the
  frame of every later round.
* `scenarios.dfy` (`ScopeScenarios`) works the "requiring a principle"
  linking scenario through those lemmas.
* `language_scenario.dfy` (`LanguageDocuments`, `LanguageScenario`) works
  the "requiring a principle in a language" linking scenario: inside
  language `L`, `P2` requires `P1`, and the `apply P2.P1` of a later
  principle `P3` resolves to `P1` and splices in `P1`'s relation `test`.
* `validator.dfy` (`SlartiValidator`) holds the two checks, the
  registration table and the validation scenarios.

Names are qualified exactly as the code does it. `getPath` starts from the
node itself, so the node's own name is part of the path:

* a top-level token `T` is exported as `T.T`;
* relation `test` of principle `P1` appears in the Model's list as
  `P1.test`;
* for a principle `P1` inside language `L`, the same relation is `L.P1.test`
  in `L`'s list and `L.L.P1.test` in the Model's list.

Identifiers are assumed to contain no dot (`NamesDotFree` in `names.dfy`).
The grammar is not part of this model, so this is an assumption about
its identifier rule. `PathDotFree` and `QualifiedNameSegments` rely on
it to read the segments of a qualified name back.

The recursion of `processContainer` terminates. The model's proof of this
follows the source's own reason. Re-entering an applied principle starts
from an empty frame, and every description in a frame points below the
node where the current fresh pass began. The ghost parameter `lo` carries
that bound.

## Model

| member | source | states |
|---|---|---|
| Descriptions.Lookup | packages/slarti/src/language/slarti-module.ts:134-141 | the node of the first description, in list order, whose name matches; `None` exactly when no description has that name |
| Descriptions.LookupNode | packages/slarti/src/language/slarti-module.ts:134-141 | the scan with early return yields `Lookup` |
| Descriptions.OuterFrameWins | packages/slarti/src/language/slarti-module.ts:112 | appending entries after a scope never changes a lookup that already succeeds, so in `[...frame, ...localDescriptions]` an outer entry wins a clash |
| Descriptions.LookupMissesPrefix | packages/slarti/src/language/slarti-module.ts:134-141 | a name missing from a scope is missing from every prefix of it |
| Descriptions.LookupPastPrefix | packages/slarti/src/language/slarti-module.ts:134-141 | entries of other names placed before a scope do not change a lookup in it |
| QualifiedNames.GetPath | packages/slarti/src/language/slarti-module.ts:153-165 | the loop returns the names of the named nodes from the root down to the node itself, then `name` |
| QualifiedNames.GetQualifiedName | packages/slarti/src/language/slarti-module.ts:166-168 | the result is that path joined with '.' |
| QualifiedNames.SplitJoin | packages/slarti/src/language/slarti-module.ts:166-168 | splitting a join of dot-free segments at '.' gives the segments back |
| QualifiedNames.QualifiedNameSegments | packages/slarti/src/language/slarti-module.ts:153-168 | the segments of a qualified name are the path's names and then `name`'s own segments; the last one is `name` when it has no dot |
| QualifiedNames.TopLevelQualifiedName | packages/slarti/src/language/slarti-module.ts:153-168 | for a named child of the Model the path is its own name alone, so the qualified name is `<own name>.<name>` |
| ScopeComputation.FilterNamed | packages/slarti/src/language/slarti-module.ts:60-62 | the result keeps exactly the named elements, each taken from the input |
| ScopeComputation.FilterContainers | packages/slarti/src/language/slarti-module.ts:78-80 | the result keeps exactly the container elements, each taken from the input |
| ScopeComputation.NamedElements | packages/slarti/src/language/slarti-module.ts:42-64 | the elements are named children of the container; every kind outside the rule table has none |
| ScopeComputation.ContainerElements | packages/slarti/src/language/slarti-module.ts:66-82 | the elements are children of the container that are themselves containers; every kind outside the rule table has none |
| ScopeComputation.Bare | packages/slarti/src/language/slarti-module.ts:105-110 | one description per element, in order, under the element's own name |
| ScopeComputation.QualifyAll | packages/slarti/src/language/slarti-module.ts:113-116 | entry by entry, the same node renamed to the name qualified against the container |
| ScopeComputation.RelationsOf | packages/slarti/src/language/slarti-module.ts:97 | exactly the `Relation` descriptions of the list, each taken from it |
| ScopeComputation.AliasRound | packages/slarti/src/language/slarti-module.ts:119-126 | one round extends the list by at most one entry and keeps it as a prefix |
| ScopeComputation.Aliases | packages/slarti/src/language/slarti-module.ts:117-128 | the aliases extend the list, at most one per required name, and point at nodes of the document |
| ScopeComputation.Exports | packages/slarti/src/language/slarti-module.ts:20-31 | one export per named element of the Model, in the same order |
| ScopeComputation.Appended | packages/slarti/src/language/slarti-module.ts:130 | `addAll` appends to the key's list and changes no other key |
| ScopeComputation.ReplayConcat | packages/slarti/src/language/slarti-module.ts:130 | replaying two runs of appends one after the other equals replaying them together |
| ScopeComputation.Process | packages/slarti/src/language/slarti-module.ts:84-132 | the call's last `addAll` records its own list under its own container; every earlier one is keyed by a node above the bound |
| ScopeComputation.Splice | packages/slarti/src/language/slarti-module.ts:91-104 | the spliced descriptions and every key the re-entry writes lie above the bound |
| ScopeComputation.Nest | packages/slarti/src/language/slarti-module.ts:111-129 | one round keeps what was gathered as a prefix and writes only keys above the bound |
| ScopeComputation.ProcessNested | packages/slarti/src/language/slarti-module.ts:111-129 | the loop keeps the gathered list and the table's history as prefixes |
| SlartiScopeComputation.ScopeTable.constructor | packages/slarti/src/language/slarti-module.ts:36 | a new multimap is empty |
| SlartiScopeComputation.ScopeTable.AddAll | packages/slarti/src/language/slarti-module.ts:130 | the table after `addAll` is `Appended` of the table before |
| SlartiScopeComputation.CreateQualifiedDescription | packages/slarti/src/language/slarti-module.ts:143-151 | the same node under the name qualified against the container |
| SlartiScopeComputation.ProcessContainer | packages/slarti/src/language/slarti-module.ts:84-132 | returns `Process`'s list and leaves the table equal to the old table with `Process`'s log replayed |
| SlartiScopeComputation.SpliceApplied | packages/slarti/src/language/slarti-module.ts:91-104 | the `apply` head returns `Splice`'s list and replays its log onto the table |
| SlartiScopeComputation.AppendRelations | packages/slarti/src/language/slarti-module.ts:97-103 | the pushes append exactly the `Relation` descriptions, in order |
| SlartiScopeComputation.AppendBare | packages/slarti/src/language/slarti-module.ts:105-110 | the loop appends one bare-name description per named element |
| SlartiScopeComputation.ProcessElements | packages/slarti/src/language/slarti-module.ts:111-129 | the loop over container elements returns `ProcessNested`'s list and replays its log onto the table |
| SlartiScopeComputation.NestElement | packages/slarti/src/language/slarti-module.ts:112-128 | one round returns `Nest`'s list and replays its log onto the table |
| SlartiScopeComputation.AppendQualified | packages/slarti/src/language/slarti-module.ts:113-116 | the loop appends every nested description re-qualified, in order |
| SlartiScopeComputation.AddRequireAliases | packages/slarti/src/language/slarti-module.ts:117-128 | the `forEach` appends exactly `Aliases`: each lookup sees the aliases added before it |
| SlartiScopeComputation.AddRequireAlias | packages/slarti/src/language/slarti-module.ts:119-126 | one `forEach` step appends the alias exactly when the lookup finds the name, as `AliasRound` states |
| SlartiScopeComputation.ComputeLocalScopes | packages/slarti/src/language/slarti-module.ts:33-40 | a fresh table holding the replay of the root pass's log |
| SlartiScopeComputation.ComputeExports | packages/slarti/src/language/slarti-module.ts:20-31 | the loop returns exactly `Exports`: the named top-level elements in order, each under its name qualified against itself |
| ScopeProperties.ReplayExtends | packages/slarti/src/language/slarti-module.ts:130 | appends never shorten or rewrite a list already in the table |
| ScopeProperties.ReplayOtherKeys | packages/slarti/src/language/slarti-module.ts:130 | appends under other keys leave a key's list unchanged |
| ScopeProperties.CallAppendsItsList | packages/slarti/src/language/slarti-module.ts:130-131 | after a call, its container's list in the table ends with the list the call returned, and nothing earlier was lost |
| ScopeProperties.ModelScopeIsItsList | packages/slarti/src/language/slarti-module.ts:33-39 | in the table `computeLocalScopes` returns, the Model's entry is exactly the Model's list |
| ScopeProperties.ExportsAreTopLevel | packages/slarti/src/language/slarti-module.ts:20-31 | every export is a named element of the Model, a child of the root, exported as `<name>.<name>` |
| ScopeProperties.ExportsComplete | packages/slarti/src/language/slarti-module.ts:20-31 | every named element of the Model is exported |
| ScopeProperties.ListOpensWithSpliceThenBareNames | packages/slarti/src/language/slarti-module.ts:90-110 | a list opens with the spliced relations and then the bare names; only an `apply` splices |
| ScopeProperties.ApplyListIsSplice | packages/slarti/src/language/slarti-module.ts:91-104 | an `apply`'s list is empty when its principle is not found or is not a container; otherwise it holds exactly the `Relation` descriptions of that principle's fresh list |
| ScopeProperties.ApplyListIsSpliced | packages/slarti/src/language/slarti-module.ts:91-110 | an `apply` has no named or container elements, so its list is exactly what the head splices in |
| ScopeProperties.ApplyReentryAppendsAgain | packages/slarti/src/language/slarti-module.ts:95-96 | re-entering the applied principle appends the principle's freshly computed list under the principle, after whatever the table already held for it |
| ScopeProperties.NestQualifies | packages/slarti/src/language/slarti-module.ts:112-116 | one round adds every named element of the nested container under its name qualified against that container |
| ScopeProperties.NestedKeepsQualified | packages/slarti/src/language/slarti-module.ts:111-116 | the loop keeps every such qualified description in the final list |
| ScopeProperties.NestedKeepsGathered | packages/slarti/src/language/slarti-module.ts:111-129 | the loop over container elements only appends: every entry gathered before it stays in the list |
| ScopeProperties.NestedNamesQualified | packages/slarti/src/language/slarti-module.ts:111-116 | a container's list holds every named element of each nested container, under that container's path followed by the element's name |
| ScopeProperties.LanguageListQualifiesRelations | packages/slarti/src/language/slarti-module.ts:43-45 | in a top-level language `L`, relation `r` of principle `P` appears as `L.P.r` |
| ScopeProperties.ModelListQualifiesRelations | packages/slarti/src/language/slarti-module.ts:58-60 | relation `r` of a top-level principle `P` appears in the Model's list as `P.r` |
| ScopeProperties.AliasesSound | packages/slarti/src/language/slarti-module.ts:117-128 | every added alias is `<root>.<q>` for a required `q` and points at what `q` resolved to in the frame and the list before it |
| ScopeProperties.FirstAliasSound | packages/slarti/src/language/slarti-module.ts:119-126 | the entry one round adds, if any, is `<root>.<name>` for the node the lookup found |
| ScopeProperties.AliasAdded | packages/slarti/src/language/slarti-module.ts:117-128 | a required name already resolvable gets its alias, pointing at the node found |
| ScopeProperties.AliasOnlyIfFound | packages/slarti/src/language/slarti-module.ts:120-125 | an alias named `<root>.<q>` exists only if `q` is required and resolves, so a name that does not resolve is skipped |
| ScopeProperties.NestAddsAlias | packages/slarti/src/language/slarti-module.ts:117-128 | the round of a principle requiring `q` adds `<principle>.<q>` for the node that `q` resolves to |
| ScopeProperties.NestedAddsAlias | packages/slarti/src/language/slarti-module.ts:111-128 | once `q` resolves at the loop's start, the alias of every principle requiring it reaches the final list |
| ScopeProperties.RequireAddsAlias | packages/slarti/src/language/slarti-module.ts:117-128 | a `require q` in a nested principle puts `<principle>.<q>` into the container's list, pointing at the node `n` that `q` resolves to in the frame followed by the list's head (spliced relations, then bare names) |
| ScopeScenarios.RequiringScenario | packages/slarti/test/linking/linking.test.ts:62-78 | for `token T`, `P1 { relation test }` and `P2 { require P1 }`, the Model's list opens with `T`, `P1`, `P2` and holds `P1.test` and the alias `P2.P1` pointing at `P1`; the table's Model entry is that list |
| ScopeRounds.Gathered | packages/slarti/src/language/slarti-module.ts:111-129 | the list at the start of round `i` and the table's history so far point only at nodes of the document above the bound |
| ScopeRounds.RoundFrame | packages/slarti/src/language/slarti-module.ts:112 | the frame `[...frame, ...localDescriptions]` a round passes to its nested call points only at nodes above the bound |
| ScopeRounds.NestedSplit | packages/slarti/src/language/slarti-module.ts:111-129 | the loop over all elements is the loop over the first `k` and then the loop over the rest, starting from where the first part left off |
| ScopeRounds.GatheredStep | packages/slarti/src/language/slarti-module.ts:111-129 | the list at the start of round `i + 1` is the list at the start of round `i` after one round on the `i`-th element, and the history grows by that round's appends |
| ScopeRounds.GatheredZero | packages/slarti/src/language/slarti-module.ts:90-111 | the list at the start of the first round is the head: the spliced relations, then the bare names |
| ScopeRounds.FirstRoundFrame | packages/slarti/src/language/slarti-module.ts:112 | the first round's nested call sees the outer frame followed by the head |
| ScopeRounds.GatheredAll | packages/slarti/src/language/slarti-module.ts:111-131 | after the last round the gathered list is the container's list |
| ScopeRounds.GatheredGrows | packages/slarti/src/language/slarti-module.ts:111-129 | rounds only append: the list at the start of an earlier round opens the list at the start of every later one |
| ScopeRounds.GatheredInList | packages/slarti/src/language/slarti-module.ts:111-131 | whatever the list holds at the start of some round is in the container's final list |
| ScopeRounds.RoundOpensWithNested | packages/slarti/src/language/slarti-module.ts:112-116 | round `i` first appends its element's list, computed in that round's frame and re-qualified against the element, before any alias |
| ScopeRounds.RequireAddsAliasInRound | packages/slarti/src/language/slarti-module.ts:117-128 | `require q` in the principle of round `i` puts `<principle>.<q>` into the list, pointing at what `q` resolves to in that round's frame, including names and aliases earlier rounds added |
| ScopeRounds.SiblingAliasInFrame | packages/slarti/src/language/slarti-module.ts:112-128 | the alias an earlier principle sibling adds lies in the frame of every later round, so a later sibling's `apply` can find it |
| ScopeRounds.GatheredInLaterFrame | packages/slarti/src/language/slarti-module.ts:112 | the list at the start of round `j` lies in the frame of every round from `j` on |
| ScopeRounds.EmptyContainerList | packages/slarti/src/language/slarti-module.ts:84-132 | a container that is not an `apply` and has no named and no container elements has an empty list |
| ScopeRounds.NestOfEmptyList | packages/slarti/src/language/slarti-module.ts:112-128 | a round on an element whose list is empty adds nothing but, for a principle, its aliases |
| ScopeRounds.NestOfPrincipleWithoutRequires | packages/slarti/src/language/slarti-module.ts:112-128 | a round on a principle without `require` adds exactly its list re-qualified against it |
| ScopeRounds.QuietRound | packages/slarti/src/language/slarti-module.ts:112-128 | the round of an element that is not a principle and whose list is empty leaves the gathered list unchanged |
| ScopeRounds.PrincipleRound | packages/slarti/src/language/slarti-module.ts:112-128 | the round of a principle appends its list re-qualified against it, then the aliases of its `require`s resolved against the frame and that list |
| ScopeRounds.ChildlessRound | packages/slarti/src/language/slarti-module.ts:112-128 | the round of an element with no named or container elements, neither a principle nor an `apply`, leaves the gathered list unchanged |
| ScopeRounds.ChildlessPrincipleRound | packages/slarti/src/language/slarti-module.ts:112-128 | the round of a principle with no named or container elements adds only the aliases of its `require`s |
| ScopeRounds.OneQuietElement | packages/slarti/src/language/slarti-module.ts:84-132 | a container whose one container element has no named or container elements and is neither a principle nor an `apply` has its head as its list |
| LanguageScenario.RequiringInLanguageScenario | packages/slarti/test/linking/linking.test.ts:79-98 | in language `L` with `token T`, `P1 { relation test }`, `P2 { require P1 }` and `P3 { apply P2.P1 }`, `P2.P1` resolves to `P1` in the frame `P3`'s `apply` sees, the `apply`'s list is exactly `P1`'s relation `test`, and `L`'s list holds the alias `P2.P1` pointing at `P1` |
| SlartiValidator.ToUpper | packages/slarti/src/language/slarti-validator.ts:25 | upper-casing changes a character exactly when it is a lower-case letter, and lower-casing undoes it |
| SlartiValidator.ToLower | packages/slarti/src/language/slarti-validator.ts:39 | lower-casing changes a character exactly when it is a capital letter |
| SlartiValidator.CheckTokenStartsWithCapital | packages/slarti/src/language/slarti-validator.ts:22-32 | at most one warning on `name`, reported exactly when the name starts with a lower-case letter; an empty or absent name is skipped |
| SlartiValidator.CheckRelationStartsWithNonCapital | packages/slarti/src/language/slarti-validator.ts:33-46 | at most one warning on `name`, reported exactly when the name starts with a capital letter |
| SlartiValidator.RegisteredChecks | packages/slarti/src/language/slarti-validator.ts:11-14 | checks are registered for `Token` and `Relation` only, each for its own kind |
| SlartiValidator.Validate | packages/slarti/src/language/slarti-validator.ts:8-16 | a node gets one warning exactly when it is a lower-case token or a capitalised relation, and no other node gets one |
| SlartiValidator.NoNameFailsBoth | packages/slarti/src/language/slarti-validator.ts:22-46 | no name fails both checks |
| SlartiValidator.TokenScenarios | packages/slarti/test/validating/validating.test.ts:23-42 | `TestToken` passes and `testToken` gets the token warning |
| SlartiValidator.RelationScenarios | packages/slarti/test/validating/validating.test.ts:44-67 | relation `test` passes and `Test` gets the relation warning |

## Left out

- The dependency-injection modules and `createSlartiServices` are not part of this model. They wire services together and compute nothing.
- `console.log` and `logFrame` are left out because they only print.
- `async`/`Promise` is left out. Both overrides compute their results synchronously.
- The `document` argument of `createDescription` is left out. A description here is its node, name and `$type`; the document URI, the name's source range and the path inside the document are not modelled.
- The grammar, the parser and the generated `ast.ts` type guards are not part of this model. `IsNamedKind` and `IsContainerKind` state the sets of kinds that carry a `name` and that belong to the `Container` union.
- A `Namespace` has no row in either rule table, so its list is empty, as in the source.
- How Langium later resolves references against the computed scopes is not part of this model.
- `lookupNode` returning a description whose `node` is undefined is not modelled. Every description here points at a node.
- SlartiValidator.ToUpper: models ASCII letters only. The source's `toUpperCase` also maps non-ASCII letters, and can turn one character into several.
- SlartiValidator.ToLower: models ASCII letters only, for the same reason.
- `substring(0, 1)` takes one UTF-16 code unit. The model takes the first character of the name.
- Diagnostic ranges (line and column) are not modelled. A diagnostic names its node and property instead.
- The "applying a required a principle in a language" linking test (packages/slarti/test/linking/linking.test.ts:99-122) is not worked as a scenario. Its `apply` body maps terms, which the scope computation does not read.
- The validation registry's traversal of a whole document is not part of this model. `Validate` is what it runs on one node.

# TopN plan matcher

A model of Presto's `TopNMatcher`, one of the matchers of the plan-testing
framework. A test describes the plan it expects as a tree of matchers; the
framework walks the actual plan beside it and asks each matcher first
`shapeMatches` (is this node of the right kind?) and then `detailMatches`
(do its parameters agree?). Column names in the actual plan are generated by
the planner, so the test refers to them through aliases that are looked up
in an alias table at match time.

A `TopNMatcher` is configured with a row count and an ordered list of
aliases for the sort keys. It accepts a node when the node is a TopN node
with that count, whose sort-key list is exactly the aliases' symbols in
order, and whose symbol-to-sort-order map sends each of those symbols, and
nothing else, to "ascending, nulls first".

The model has three modules:

- `Plan` (`plan.dfy`): the values the matcher reads. `Long` is Java's 64-bit
  `long`; `Symbol` a concrete column; `SortOrder` the four sort directions;
  `PlanNode` either a `TopN` node with its count, sort keys and orderings, or
  any other kind of node; `SymbolAliases` the alias table, a map from alias to
  symbol; `MatchResult` either `NoMatch` or a `Match` carrying the aliases it
  newly binds.
- `TopNMatching` (`topn_matcher.dfy`): the matcher as a datatype
  `TopNMatcher(count, orderBySymbols)` with `ShapeMatches` and
  `DetailMatches`, alias resolution (`ResolveAll`), the map of expected
  orderings, and declarative statements of what a matching node looks like
  (`OrderByAgrees`, `OrderingsAgree`) that the lemmas relate the matcher to.
  `TopNExamples`, in the same file, works the matcher through concrete nodes.

`detailMatches` has two framework errors besides its normal result, and the
model keeps them apart from `NoMatch` in the `Outcome` datatype: calling it
on a node `shapeMatches` rejects gives `ShapeViolation`, and a configured
alias that the table does not bind gives `UnboundAlias`, naming the first
such alias, since the aliases are resolved in order. The row count is
compared before any alias is resolved, so a count mismatch is `NoMatch` even
when an alias is unbound.

The matcher's configuration is a datatype value and `DetailMatches` is a
function, so the configuration cannot change after construction (the source
keeps it in final fields and copies the alias list) and two calls with the
same node and table give the same outcome. Beyond that, the lemmas show that
the outcome depends on the table only at the configured aliases, and that
aliases bound later in a match never change an outcome that was not an
unbound-alias error.

## Model

| member | source | states |
|---|---|---|
| `TopNMatching.ShapeMatchesExactlyTopN` | presto-main/src/test/java/com/facebook/presto/sql/planner/assertions/TopNMatcher.java:48-52 | The kind test accepts every TopN node whatever its count, keys and orderings, and rejects every other kind of node. |
| `TopNMatching.TopNMatcher.DetailMatches` | presto-main/src/test/java/com/facebook/presto/sql/planner/assertions/TopNMatcher.java:54-79 | The shape-violation error exactly when the kind test fails; with the right kind, a count different from the configured one is `NoMatch` whatever the aliases and orderings; a match binds no new aliases. |
| `TopNMatching.ResolveAll` | presto-main/src/test/java/com/facebook/presto/sql/planner/assertions/TopNMatcher.java:64-66 | Resolution succeeds exactly when every configured alias is bound; it then gives one symbol per alias, the i-th being the table's entry for the i-th alias; otherwise it names the first unbound alias. |
| `TopNMatching.UnboundAliasIsFatal` | presto-main/src/test/java/com/facebook/presto/sql/planner/assertions/TopNMatcher.java:60-66 | Once kind and count agree, the outcome is an unbound-alias error exactly when some configured alias is unbound, and the alias it names is the first unbound one; it is never `NoMatch`. |
| `TopNMatching.OrderByMismatchIsNoMatch` | presto-main/src/test/java/com/facebook/presto/sql/planner/assertions/TopNMatcher.java:68-70 | With kind and count agreeing and every alias bound, a node whose sort keys differ from the resolved aliases in length or at any position gets `NoMatch`. |
| `TopNMatching.ExpectedOrderings` | presto-main/src/test/java/com/facebook/presto/sql/planner/assertions/TopNMatcher.java:72 | The expected orderings have as keys exactly the symbols at the positions of the resolved list (a symbol listed twice is one key) and every value is ascending, nulls first. |
| `TopNMatching.ExpectedOrderingsMatchesSpec` | presto-main/src/test/java/com/facebook/presto/sql/planner/assertions/TopNMatcher.java:72 | The expected-orderings map equals a given map exactly when that map's keys are the set of resolved symbols and all its values are ascending, nulls first. |
| `TopNMatching.OrderingsCheck` | presto-main/src/test/java/com/facebook/presto/sql/planner/assertions/TopNMatcher.java:72-78 | Once kind, count and sort keys agree, the node matches exactly when its orderings hold the resolved symbols and no others, each ascending with nulls first; any other direction, missing key or extra key gives `NoMatch`. |
| `TopNMatching.MatchIff` | presto-main/src/test/java/com/facebook/presto/sql/planner/assertions/TopNMatcher.java:57-78 | The outcome is a match exactly when the node is a TopN node, its count is the configured one, every alias is bound, its sort keys are the resolved aliases in order and its orderings are those keys ascending with nulls first. |
| `TopNMatching.ResolveAllReadsOnlyKeys` | presto-main/src/test/java/com/facebook/presto/sql/planner/assertions/TopNMatcher.java:64-66 | Two tables that agree on the configured aliases (bound or not, and to what) resolve them to the same result. |
| `TopNMatching.DetailMatchesReadsOnlyConfiguredAliases` | presto-main/src/test/java/com/facebook/presto/sql/planner/assertions/TopNMatcher.java:55-79 | Two tables that agree on the configured aliases give the same outcome on every node: the matcher reads nothing else of the table. |
| `TopNMatching.DetailMatchesStableUnderExtension` | presto-main/src/test/java/com/facebook/presto/sql/planner/assertions/TopNMatcher.java:60-78 | Adding bindings to the table leaves every outcome that was not an unbound-alias error unchanged, so the fixed configuration decides the same way however late it is asked. |
| `TopNExamples.Scenarios` | presto-main/src/test/java/com/facebook/presto/sql/planner/assertions/TopNMatcher.java:55-79 | Ten rows by alias A bound to col_1: the exact node matches; five rows, or a descending direction, is `NoMatch`; an unbound alias B and a non-TopN node are the two framework errors. |

## Left out

- The `Session`, `PlanNodeCost` and `Metadata` arguments of `detailMatches`: the matcher never reads them, so `DetailMatches` does not take them.
- `toString`: diagnostic text only.
- `PlanTestSymbol.toSymbol`, `SymbolAliases` and `MatchResult` are not part of this model beyond their effect here: resolution is a lookup in a map from alias to symbol (`Plan.ToSymbol`, which requires the alias to be bound), and the result is `NoMatch` or a `Match` with its new aliases.
- The plan-node class hierarchy: a TopN node keeps only the count, sort keys and orderings the matcher reads (not its source node or other fields); every other node kind is `OtherNode` with a name. The `instanceof` test and the cast become the datatype's discriminator.
- The tree-walking driver that applies matchers to children and merges the aliases they bind.
- The framework errors are results (`ShapeViolation`, `UnboundAlias`) rather than thrown exceptions; their messages are not modelled.
- Java's `long` is the range-restricted `Long`; the matcher only compares counts, so there is no arithmetic to wrap.
- Java `null`: a null node, a null alias list or a null alias in it (which `ImmutableList.copyOf` rejects when the matcher is built) cannot be expressed in the model's types and is not modelled.

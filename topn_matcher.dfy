/**
 * The TopN matcher of the plan-testing framework: it accepts a plan node when
 * the node is a TopN node with the configured row count, whose sort keys are
 * exactly the configured aliases resolved in order, each sorted ascending
 * with nulls first.
 */
module TopNMatching {
  import opened Plan

  // The lemmas below follow from the contracts of `ResolveAll`,
  // `ExpectedOrderings` and `DetailMatches`, which carry the proof work;
  // each lemma states one property of the matcher in terms a test author
  // would use.

  /** What `detailMatches` can end in: a normal result, or one of the two framework errors. */
  datatype Outcome =
    | Completed(result: MatchResult)
    /** `detailMatches` was called on a node `shapeMatches` rejects. */
    | ShapeViolation
    /** A configured alias is not bound in the alias table. */
    | UnboundAlias(alias: Alias)

  /** The configured aliases, resolved in order, or the first one that is not bound. */
  datatype Resolution = Resolved(symbols: seq<Symbol>) | Unbound(alias: Alias)

  /** Resolves each alias of `keys` through the table, in order, stopping at the first unbound one. */
  function ResolveAll(keys: seq<Alias>, aliases: SymbolAliases): (r: Resolution)
    ensures r.Resolved? <==> AllBound(keys, aliases)
    ensures r.Resolved? ==>
      |r.symbols| == |keys| && forall i | 0 <= i < |keys| :: r.symbols[i] == aliases[keys[i]]
    ensures r.Unbound? ==> FirstUnbound(keys, aliases, r.alias)
  {
    if keys == [] then Resolved([])
    else if keys[0] !in aliases then
      assert keys[..0] == [];
      Unbound(keys[0])
    else
      match ResolveAll(keys[1..], aliases)
      case Resolved(rest) => Resolved([ToSymbol(keys[0], aliases)] + rest)
      case Unbound(a) =>
        assert !AllBound(keys, aliases) by {
          var i :| 0 <= i < |keys[1..]| && keys[1..][i] !in aliases;
          assert keys[i + 1] !in aliases;
        }
        var j :| 0 <= j < |keys[1..]| && keys[1..][j] == a && a !in aliases && AllBound(keys[1..][..j], aliases);
        assert keys[..j + 1] == [keys[0]] + keys[1..][..j];
        assert keys[j + 1] == a;
        Unbound(a)
  }

  /**
   * The orderings a matching node must carry: one entry per distinct resolved
   * key (a key listed twice appears once), each ascending with nulls first.
   */
  function ExpectedOrderings(symbols: seq<Symbol>): (m: map<Symbol, SortOrder>)
    ensures m.Keys == set i | 0 <= i < |symbols| :: symbols[i]
    ensures m.Values <= {AscNullsFirst}
  {
    map s | s in symbols :: AscNullsFirst
  }

  /** The symbols the configured aliases stand for, as a set. */
  ghost function ResolvedSet(keys: seq<Alias>, aliases: SymbolAliases): set<Symbol>
    requires AllBound(keys, aliases)
  {
    set i | 0 <= i < |keys| :: aliases[keys[i]]
  }

  /** The node's sort keys are the configured aliases' symbols, same length, same order. */
  ghost predicate OrderByAgrees(orderBy: seq<Symbol>, keys: seq<Alias>, aliases: SymbolAliases)
    requires AllBound(keys, aliases)
  {
    |orderBy| == |keys| && forall i | 0 <= i < |keys| :: orderBy[i] == aliases[keys[i]]
  }

  /** The node orders exactly the configured symbols, each ascending with nulls first. */
  ghost predicate OrderingsAgree(orderings: map<Symbol, SortOrder>, keys: seq<Alias>, aliases: SymbolAliases)
    requires AllBound(keys, aliases)
  {
    && orderings.Keys == ResolvedSet(keys, aliases)
    && forall s | s in orderings :: orderings[s] == AscNullsFirst
  }

  /** A TopN matcher: the expected row count and the aliases of the expected sort keys. */
  datatype TopNMatcher = TopNMatcher(count: Long, orderBySymbols: seq<Alias>)
  {
    /** The cheap kind test: is the node a TopN node? */
    predicate ShapeMatches(node: PlanNode)
    {
      node.TopN?
    }

    /**
     * The full check. A node of the wrong kind is a framework error; the row
     * count is compared before any alias is resolved; an unbound alias is a
     * framework error; then the sort-key list and the orderings are compared.
     */
    function DetailMatches(node: PlanNode, aliases: SymbolAliases): (r: Outcome)
      ensures r.ShapeViolation? <==> !ShapeMatches(node)
      ensures ShapeMatches(node) && node.count != count ==> r == Completed(NoMatch)
      ensures r.Completed? && r.result.Match? ==> r.result.newAliases == map[]
    {
      if !ShapeMatches(node) then ShapeViolation
      else if node.count != count then Completed(NoMatch)
      else
        match ResolveAll(orderBySymbols, aliases)
        case Unbound(a) => UnboundAlias(a)
        case Resolved(expectedOrderBy) =>
          if node.orderBy != expectedOrderBy then Completed(NoMatch)
          else if node.orderings != ExpectedOrderings(expectedOrderBy) then Completed(NoMatch)
          else Completed(Match(map[]))
    }
  }

  /**
   * The kind test looks at the kind alone: every TopN node passes, whatever
   * its fields, and no other node does. This restates the definition of
   * `ShapeMatches`, which is a single kind test.
   */
  lemma ShapeMatchesExactlyTopN(m: TopNMatcher, node: PlanNode)
    ensures forall c, ob, ord :: m.ShapeMatches(TopN(c, ob, ord))
    ensures m.ShapeMatches(node) <==> !node.OtherNode?
  {
  }

  /** With the right kind and count, an unbound alias is reported, and it is the first one. */
  lemma UnboundAliasIsFatal(m: TopNMatcher, node: PlanNode, aliases: SymbolAliases)
    requires m.ShapeMatches(node) && node.count == m.count
    ensures m.DetailMatches(node, aliases).UnboundAlias? <==> !AllBound(m.orderBySymbols, aliases)
    ensures m.DetailMatches(node, aliases).UnboundAlias? ==>
      FirstUnbound(m.orderBySymbols, aliases, m.DetailMatches(node, aliases).alias)
  {
  }

  /** A node whose sort keys differ from the resolved aliases in length, membership or order does not match. */
  lemma OrderByMismatchIsNoMatch(m: TopNMatcher, node: PlanNode, aliases: SymbolAliases)
    requires m.ShapeMatches(node) && node.count == m.count && AllBound(m.orderBySymbols, aliases)
    requires !OrderByAgrees(node.orderBy, m.orderBySymbols, aliases)
    ensures m.DetailMatches(node, aliases) == Completed(NoMatch)
  {
  }

  /** The map the matcher builds has exactly the resolved symbols as keys, all ascending with nulls first. */
  lemma ExpectedOrderingsMatchesSpec(keys: seq<Alias>, aliases: SymbolAliases, orderings: map<Symbol, SortOrder>)
    requires AllBound(keys, aliases)
    ensures ResolveAll(keys, aliases).Resolved?
    ensures orderings == ExpectedOrderings(ResolveAll(keys, aliases).symbols) <==>
      OrderingsAgree(orderings, keys, aliases)
  {
  }

  /**
   * Once kind, count and sort keys agree, the node matches exactly when its
   * orderings are the resolved keys, each ascending with nulls first: any
   * other direction, a missing key or an extra key gives no match.
   */
  lemma OrderingsCheck(m: TopNMatcher, node: PlanNode, aliases: SymbolAliases)
    requires m.ShapeMatches(node) && node.count == m.count && AllBound(m.orderBySymbols, aliases)
    requires OrderByAgrees(node.orderBy, m.orderBySymbols, aliases)
    ensures m.DetailMatches(node, aliases).Completed?
    ensures m.DetailMatches(node, aliases) == Completed(Match(map[])) <==>
      OrderingsAgree(node.orderings, m.orderBySymbols, aliases)
  {
  }

  /**
   * The matcher accepts exactly the TopN nodes with the configured count,
   * the resolved sort keys in order and those keys' default orderings;
   * every other outcome is no match or a framework error.
   */
  lemma MatchIff(m: TopNMatcher, node: PlanNode, aliases: SymbolAliases)
    ensures m.DetailMatches(node, aliases).Completed? && m.DetailMatches(node, aliases).result.Match? <==>
      && m.ShapeMatches(node)
      && node.count == m.count
      && AllBound(m.orderBySymbols, aliases)
      && OrderByAgrees(node.orderBy, m.orderBySymbols, aliases)
      && OrderingsAgree(node.orderings, m.orderBySymbols, aliases)
  {
  }

  /** Resolution reads the table only at the configured aliases. */
  lemma ResolveAllReadsOnlyKeys(keys: seq<Alias>, a1: SymbolAliases, a2: SymbolAliases)
    requires AgreeOn(keys, a1, a2)
    ensures ResolveAll(keys, a1) == ResolveAll(keys, a2)
  {
  }

  /** Two alias tables that agree on the configured aliases give the same outcome on every node. */
  lemma DetailMatchesReadsOnlyConfiguredAliases(m: TopNMatcher, node: PlanNode, a1: SymbolAliases, a2: SymbolAliases)
    requires AgreeOn(m.orderBySymbols, a1, a2)
    ensures m.DetailMatches(node, a1) == m.DetailMatches(node, a2)
  {
  }

  /**
   * Aliases bound later in a match (the table only grows) never change an
   * outcome that was not an unbound-alias error: the matcher's decision is
   * stable however often and however late it is asked.
   */
  lemma DetailMatchesStableUnderExtension(m: TopNMatcher, node: PlanNode, small: SymbolAliases, big: SymbolAliases)
    requires Extends(big, small)
    requires !m.DetailMatches(node, small).UnboundAlias?
    ensures m.DetailMatches(node, big) == m.DetailMatches(node, small)
  {
  }
}

/** Worked examples of the matcher on concrete nodes. */
module TopNExamples {
  import opened Plan
  import opened TopNMatching

  /**
   * A matcher for ten rows ordered by alias "A", with "A" bound to `col_1`:
   * it accepts the node with ten rows ordered ascending, nulls first, by
   * `col_1`; it rejects the same node with five rows, or with `col_1`
   * ordered descending; and a matcher ordered by the unbound alias "B" is a
   * framework error.
   */
  lemma Scenarios()
    ensures TopNMatcher(10, ["A"]).DetailMatches(TopN(10, [Symbol("col_1")], map[Symbol("col_1") := AscNullsFirst]), map["A" := Symbol("col_1")])
      == Completed(Match(map[]))
    ensures TopNMatcher(10, ["A"]).DetailMatches(TopN(5, [Symbol("col_1")], map[Symbol("col_1") := AscNullsFirst]), map["A" := Symbol("col_1")])
      == Completed(NoMatch)
    ensures TopNMatcher(10, ["A"]).DetailMatches(TopN(10, [Symbol("col_1")], map[Symbol("col_1") := DescNullsFirst]), map["A" := Symbol("col_1")])
      == Completed(NoMatch)
    ensures TopNMatcher(10, ["B"]).DetailMatches(TopN(10, [Symbol("col_1")], map[Symbol("col_1") := AscNullsFirst]), map["A" := Symbol("col_1")])
      == UnboundAlias("B")
    ensures TopNMatcher(10, ["A"]).DetailMatches(OtherNode("Limit"), map["A" := Symbol("col_1")]) == ShapeViolation
  {
    var col := Symbol("col_1");
    var aliases := map["A" := col];
    var resolved := ResolveAll(["A"], aliases);
    assert resolved.Resolved? && resolved.symbols == [col];
    assert ExpectedOrderings([col]) == map[col := AscNullsFirst];
    assert map[col := DescNullsFirst][col] != ExpectedOrderings([col])[col];
    assert ResolveAll(["B"], aliases) == Unbound("B");
  }
}

/**
 * The plan-side values a matcher reads: symbols, sort orders, plan nodes,
 * the alias table built up during a match and the result a matcher returns.
 * Only what TopNMatcher reads of them is modelled.
 */
module Plan {

  /** Java's `long`: the row count of a TopN node and of a matcher. */
  newtype Long = x: int | -0x8000_0000_0000_0000 <= x < 0x8000_0000_0000_0000

  /** A concrete column identifier produced by the planner; compared by name. */
  datatype Symbol = Symbol(name: string)

  /** The four sort directions a TopN node can attach to a key. */
  datatype SortOrder = AscNullsFirst | AscNullsLast | DescNullsFirst | DescNullsLast

  /**
   * A plan node, reduced to its kind and the three fields a TopN matcher
   * reads. Every node that is not a TopN node is `OtherNode`, tagged with
   * the name of its kind.
   */
  datatype PlanNode =
    | TopN(count: Long, orderBy: seq<Symbol>, orderings: map<Symbol, SortOrder>)
    | OtherNode(kind: string)

  /** The name a test author gives to a column whose symbol is only known at match time. */
  type Alias = string

  /** The alias table: what each alias bound so far stands for. */
  type SymbolAliases = map<Alias, Symbol>

  /** What a matcher reports: no match, or a match with the aliases it newly binds. */
  datatype MatchResult = NoMatch | Match(newAliases: SymbolAliases)

  /** Looking up a bound alias. */
  function ToSymbol(alias: Alias, aliases: SymbolAliases): Symbol
    requires alias in aliases
  {
    aliases[alias]
  }

  /** Every alias of `keys` is bound in `aliases`. */
  predicate AllBound(keys: seq<Alias>, aliases: SymbolAliases)
  {
    forall i | 0 <= i < |keys| :: keys[i] in aliases
  }

  /** `alias` is the first alias of `keys` that `aliases` does not bind. */
  predicate FirstUnbound(keys: seq<Alias>, aliases: SymbolAliases, alias: Alias)
  {
    exists j | 0 <= j < |keys| :: keys[j] == alias && alias !in aliases && AllBound(keys[..j], aliases)
  }

  /** `a1` and `a2` say the same about every alias in `keys`. */
  predicate AgreeOn(keys: seq<Alias>, a1: SymbolAliases, a2: SymbolAliases)
  {
    forall i | 0 <= i < |keys| ::
      (keys[i] in a1 <==> keys[i] in a2) && (keys[i] in a1 ==> a1[keys[i]] == a2[keys[i]])
  }

  /** `big` keeps every binding of `small` (the table only grows during a match). */
  predicate Extends(big: SymbolAliases, small: SymbolAliases)
  {
    forall a | a in small :: a in big && big[a] == small[a]
  }
}

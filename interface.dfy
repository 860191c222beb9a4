/**
 * The contract every market data source honours, stated over the source's tracked-ticker
 * list before and after a call and the cache it writes to. Each source class proves these
 * predicates in the postconditions of its own methods.
 */
module MarketInterface {

  /** `add_ticker`: no-op when present; otherwise the ticker joins the tracked list (at the end). */
  predicate AddTickerContract(before: seq<string>, after: seq<string>, ticker: string): (holds: bool)
    ensures holds ==> ticker in after && forall t :: t in before ==> t in after
    ensures holds <==> after == if ticker in before then before else before + [ticker]
  {
    && (ticker in before ==> after == before)
    && (ticker !in before ==> after == before + [ticker])
  }

  /**
   * `remove_ticker`: no-op on the tracked list when absent; otherwise the ticker leaves it while
   * every other tracked ticker stays; either way the ticker is no longer cached.
   */
  predicate RemoveTickerContract(before: seq<string>, after: seq<string>, ticker: string,
                                 cachedAfter: set<string>): (holds: bool)
    ensures holds ==> forall t :: t in after <==> t in before && t != ticker
    ensures holds ==> ticker !in cachedAfter
    ensures holds && ticker !in before ==> after == before
  {
    && ticker !in after
    && (ticker !in before ==> after == before)
    && (forall t :: t in before && t != ticker ==> t in after)
    && (forall t :: t in after ==> t in before)
    && ticker !in cachedAfter
  }
}

/** Seed prices, per-ticker drift/volatility and the correlation table of the simulator. */
module SeedTables {

  /** Annualised volatility `sigma` and drift `mu` of one ticker. */
  datatype Params = Params(sigma: real, mu: real)

  /** Starting prices for the default watchlist. */
  const SeedPrices: map<string, real> := map[
    "AAPL" := 190.00,
    "GOOGL" := 175.00,
    "MSFT" := 420.00,
    "AMZN" := 185.00,
    "TSLA" := 250.00,
    "NVDA" := 800.00,
    "META" := 500.00,
    "JPM" := 195.00,
    "V" := 280.00,
    "NFLX" := 600.00
  ]

  /** Per-ticker GBM parameters. */
  const TickerParams: map<string, Params> := map[
    "AAPL" := Params(0.22, 0.05),
    "GOOGL" := Params(0.25, 0.05),
    "MSFT" := Params(0.20, 0.05),
    "AMZN" := Params(0.28, 0.05),
    "TSLA" := Params(0.50, 0.03),
    "NVDA" := Params(0.40, 0.08),
    "META" := Params(0.30, 0.05),
    "JPM" := Params(0.18, 0.04),
    "V" := Params(0.17, 0.04),
    "NFLX" := Params(0.35, 0.05)
  ]

  /** Parameters for tickers absent from `TickerParams`. */
  const DefaultParams: Params := Params(0.25, 0.05)

  /** Named correlation groups. */
  const CorrelationGroups: map<string, set<string>> := map[
    "tech" := {"AAPL", "GOOGL", "MSFT", "AMZN", "META", "NVDA", "NFLX"},
    "finance" := {"JPM", "V"}
  ]

  const IntraTechCorr: real := 0.6
  const IntraFinanceCorr: real := 0.5
  const CrossGroupCorr: real := 0.3
  const TslaCorr: real := 0.3
  const DefaultCorr: real := 0.3

  /** The parameters a ticker gets: its own entry, or the defaults. */
  function ParamsFor(ticker: string): (p: Params)
    ensures p.sigma > 0.0
    ensures ticker !in TickerParams ==> p == DefaultParams
  {
    TableIsPositive();
    if ticker in TickerParams then TickerParams[ticker] else DefaultParams
  }

  /** A listed ticker gets exactly its row of the parameter table. */
  lemma ParamsForListed(ticker: string)
    requires ticker in TickerParams
    ensures ParamsFor(ticker) == TickerParams[ticker]
  {
  }

  /** The seed table and the parameter table cover the same ten tickers. */
  lemma TablesAgree()
    ensures SeedPrices.Keys == TickerParams.Keys
  {
  }

  /** Every seed price and every volatility (default included) is strictly positive. */
  lemma TableIsPositive()
    ensures forall t :: t in SeedPrices ==> SeedPrices[t] > 0.0
    ensures forall t :: t in TickerParams ==> TickerParams[t].sigma > 0.0
    ensures DefaultParams.sigma > 0.0 && DefaultParams == Params(0.25, 0.05)
  {
  }

  /** The two groups are disjoint and TSLA belongs to neither. */
  lemma GroupsDisjointWithoutTsla()
    ensures CorrelationGroups.Keys == {"tech", "finance"}
    ensures CorrelationGroups["tech"] !! CorrelationGroups["finance"]
    ensures "TSLA" !in CorrelationGroups["tech"] && "TSLA" !in CorrelationGroups["finance"]
  {
  }

  /** All coefficients lie strictly between 0 and 1; the three "other" ones coincide at 0.3. */
  lemma CoefficientsInRange()
    ensures 0.0 < CrossGroupCorr < IntraFinanceCorr < IntraTechCorr < 1.0
    ensures CrossGroupCorr == TslaCorr == DefaultCorr == 0.3
  {
  }
}

/**
 * Choosing the market data source: the polled source when an API key is configured, the
 * simulator otherwise. The environment lookup is a parameter: `None` when the variable is unset.
 */
module Factory {
  import opened Wrappers
  import opened Text
  import opened Cache
  import opened Simulator
  import opened MassiveClient

  /** Which source a configuration selects, with the key the polled source gets. */
  datatype Choice = UsePolled(apiKey: string) | UseSimulator

  /** The selection rule: strip the key (an unset variable reads as ""), then test it for emptiness. */
  function ChooseSource(env: Option<string>): (c: Choice)
    ensures c.UsePolled? <==> Strip(env.GetOr("")) != []
    ensures c.UsePolled? ==> c.apiKey == Strip(env.GetOr(""))
  {
    var key := Strip(env.GetOr(""));
    if key != [] then UsePolled(key) else UseSimulator
  }

  /** An unset, empty or all-whitespace key selects the simulator. */
  lemma WhitespaceKeyChoosesSimulator(env: Option<string>)
    requires env.None? || forall k :: 0 <= k < |env.value| ==> IsSpace(env.value[k])
    ensures ChooseSource(env) == UseSimulator
  {
    StripEmptyIff(env.GetOr(""));
  }

  /** A key with any non-whitespace character selects the polled source, and the key it carries is stripped. */
  lemma KeyChoosesPolled(key: string, k: nat)
    requires k < |key| && !IsSpace(key[k])
    ensures ChooseSource(Some(key)).UsePolled?
    ensures var c := ChooseSource(Some(key));
            !IsSpace(c.apiKey[0]) && !IsSpace(c.apiKey[|c.apiKey| - 1]) && Strip(c.apiKey) == c.apiKey
  {
    StripEmptyIff(key);
    var r := Strip(key);
    assert r != [];
    StripIdempotent(key);
    assert !IsSpace(r[0]) && !IsSpace(r[|r| - 1]);
    assert ChooseSource(Some(key)).apiKey == r;
  }

  /** A source as the factory returns it. */
  datatype MarketDataSource = Simulated(sim: SimulatorDataSource) | Polled(polled: MassiveDataSource)

  /** Builds the chosen source around the given cache, unstarted. */
  method CreateMarketDataSource(cache: PriceCache, env: Option<string>) returns (src: MarketDataSource)
    requires cache.Valid()
    ensures src.Polled? <==> ChooseSource(env).UsePolled?
    ensures src.Polled? ==>
              && fresh(src.polled) && src.polled.Valid() && !src.polled.started
              && src.polled.cache == cache && src.polled.apiKey == ChooseSource(env).apiKey
              && src.polled.pollInterval == 15.0 && src.polled.tickers == []
    ensures src.Simulated? ==>
              && fresh(src.sim) && src.sim.Valid() && !src.sim.started && src.sim.cache == cache
              && src.sim.updateInterval == 0.5 && src.sim.eventProbability == 0.001
  {
    var choice := ChooseSource(env);
    if choice.UsePolled? {
      var m := new MassiveDataSource(choice.apiKey, cache);
      src := Polled(m);
    } else {
      var s := new SimulatorDataSource(cache);
      src := Simulated(s);
    }
  }
}

/**
 * The polled market data source: keeps a watch list, and on each poll writes every usable
 * record of one snapshot fetch into the cache. The REST client, the thread hop and the
 * network are outside the model: a fetch is an input, `None` when the call failed.
 */
module MassiveClient {
  import opened Wrappers
  import opened Models
  import opened Text
  import opened Cache
  import opened MarketInterface

  /** The last trade of a snapshot record; either field may be missing. */
  datatype Trade = Trade(price: Option<real>, timestampMillis: Option<int>)

  /** One record of the snapshot response. */
  datatype Snapshot = Snapshot(ticker: string, lastTrade: Option<Trade>)

  /**
   * A record the poll can use: it has a last trade with both a price and a timestamp.
   * Any other record raises inside the per-record step and is skipped.
   */
  predicate Usable(s: Snapshot) {
    s.lastTrade.Some? && s.lastTrade.value.price.Some? && s.lastTrade.value.timestampMillis.Some?
  }

  /** The record's trade time in seconds: milliseconds divided by 1000. */
  function TradeSeconds(s: Snapshot): (seconds: real)
    requires Usable(s)
    ensures seconds * 1000.0 == s.lastTrade.value.timestampMillis.value as real
  {
    s.lastTrade.value.timestampMillis.value as real / 1000.0
  }

  /** The ticker form used for the watch list: upper-cased, then stripped. */
  function Normalize(ticker: string): (r: string)
    ensures r == Upper(Strip(ticker))
    ensures |r| <= |ticker|
    ensures r == [] || (!IsSpace(r[0]) && !IsSpace(r[|r| - 1]))
    ensures NoLowerCase(r)
  {
    UpperStripCommute(ticker);
    Strip(Upper(ticker))
  }

  /** Upper-casing and stripping commute. */
  lemma UpperStripCommute(s: string)
    ensures Upper(Strip(s)) == Strip(Upper(s))
  {
    StripRightUpper(StripLeft(s));
    StripLeftUpper(s);
  }

  /** Normalizing twice is normalizing once, so a normalized ticker is its own form. */
  lemma NormalizeIdempotent(ticker: string)
    ensures Normalize(Normalize(ticker)) == Normalize(ticker)
  {
    var u := Upper(ticker);
    UpperStripCommute(u);
    UpperIdempotent(ticker);
    StripIdempotent(u);
  }

  /**
   * The cache after one poll's records are written in order: every usable record writes its
   * price with its trade time, and every other record is skipped.
   */
  function ApplySnapshots(prices: map<string, PriceUpdate>, snaps: seq<Snapshot>, clock: real)
    : (m: map<string, PriceUpdate>)
    ensures prices.Keys <= m.Keys
    ensures WellFormed(prices) ==> WellFormed(m)
    decreases |snaps|
  {
    if snaps == [] then prices
    else
      var before := ApplySnapshots(prices, snaps[..|snaps| - 1], clock);
      var s := snaps[|snaps| - 1];
      if Usable(s) then Written(before, s.ticker, s.lastTrade.value.price.value, Some(TradeSeconds(s)), clock)
      else before
  }

  /** After a poll the cache holds the tickers it held before plus exactly those of the usable records. */
  lemma {:induction false} ApplySnapshotsKeys(prices: map<string, PriceUpdate>, snaps: seq<Snapshot>, clock: real)
    ensures forall t :: t in ApplySnapshots(prices, snaps, clock) <==>
              t in prices || exists k :: 0 <= k < |snaps| && Usable(snaps[k]) && snaps[k].ticker == t
    decreases |snaps|
  {
    if snaps != [] {
      var init, s := snaps[..|snaps| - 1], snaps[|snaps| - 1];
      ApplySnapshotsKeys(prices, init, clock);
      forall t
        ensures t in ApplySnapshots(prices, snaps, clock) <==>
                  t in prices || exists k :: 0 <= k < |snaps| && Usable(snaps[k]) && snaps[k].ticker == t
      {
        if exists k :: 0 <= k < |snaps| && Usable(snaps[k]) && snaps[k].ticker == t {
          var k :| 0 <= k < |snaps| && Usable(snaps[k]) && snaps[k].ticker == t;
          if k < |init| {
            assert init[k] == snaps[k];
          }
        }
        if exists k :: 0 <= k < |init| && Usable(init[k]) && init[k].ticker == t {
          var k :| 0 <= k < |init| && Usable(init[k]) && init[k].ticker == t;
          assert snaps[k] == init[k];
        }
      }
    }
  }

  /** How many records of a poll are usable. */
  function UsableCount(snaps: seq<Snapshot>): (n: nat)
    ensures n <= |snaps|
    decreases |snaps|
  {
    if snaps == [] then 0
    else UsableCount(snaps[..|snaps| - 1]) + (if Usable(snaps[|snaps| - 1]) then 1 else 0)
  }

  /** A poll whose records are all unusable leaves the cache as it was and counts nothing. */
  lemma {:induction false} UnusableSkipped(prices: map<string, PriceUpdate>, snaps: seq<Snapshot>, clock: real)
    requires forall k :: 0 <= k < |snaps| ==> !Usable(snaps[k])
    ensures ApplySnapshots(prices, snaps, clock) == prices
    ensures UsableCount(snaps) == 0
    decreases |snaps|
  {
    if snaps != [] {
      UnusableSkipped(prices, snaps[..|snaps| - 1], clock);
    }
  }

  /**
   * The last usable record of a ticker decides its cached price and time: the rounded trade
   * price, stamped with the trade time (or the clock when the trade time is 0).
   */
  lemma {:induction false} LastUsableWins(prices: map<string, PriceUpdate>, snaps: seq<Snapshot>,
                                          clock: real, k: nat)
    requires k < |snaps| && Usable(snaps[k])
    requires forall j :: k < j < |snaps| && Usable(snaps[j]) ==> snaps[j].ticker != snaps[k].ticker
    ensures var m := ApplySnapshots(prices, snaps, clock);
            var s := snaps[k];
            && s.ticker in m
            && m[s.ticker].price == Round2(s.lastTrade.value.price.value)
            && m[s.ticker].timestamp == EffectiveTimestamp(Some(TradeSeconds(s)), clock)
    decreases |snaps|
  {
    if k < |snaps| - 1 {
      var init := snaps[..|snaps| - 1];
      assert init[k] == snaps[k];
      forall j | k < j < |init| && Usable(init[j])
        ensures init[j].ticker != init[k].ticker
      {
        assert init[j] == snaps[j];
      }
      LastUsableWins(prices, init, clock, k);
    }
  }

  /** A malformed record has no effect wherever it sits in the batch: the others are still written. */
  lemma {:induction false} UnusableInvisible(prices: map<string, PriceUpdate>, a: seq<Snapshot>,
                                             bad: Snapshot, b: seq<Snapshot>, clock: real)
    requires !Usable(bad)
    ensures ApplySnapshots(prices, a + [bad] + b, clock) == ApplySnapshots(prices, a + b, clock)
    decreases |b|
  {
    if b == [] {
      assert a + [bad] + b == a + [bad];
      assert (a + [bad])[..|a|] == a;
      assert a + b == a;
    } else {
      var init := b[..|b| - 1];
      var x, y := a + [bad] + b, a + b;
      assert x[..|x| - 1] == a + [bad] + init && x[|x| - 1] == b[|b| - 1];
      assert y[..|y| - 1] == a + init && y[|y| - 1] == b[|b| - 1];
      UnusableInvisible(prices, a, bad, init, clock);
    }
  }

  /** `list` without any occurrence of `x`, order kept (the list comprehension of `remove_ticker`). */
  function Without(list: seq<string>, x: string): (r: seq<string>)
    ensures forall t :: t in r <==> t in list && t != x
    ensures |r| <= |list|
    ensures x !in list ==> r == list
    decreases |list|
  {
    if list == [] then []
    else if list[0] == x then Without(list[1..], x)
    else [list[0]] + Without(list[1..], x)
  }

  /** Filtering distributes over concatenation, so the kept tickers stay in their order. */
  lemma {:induction false} WithoutAppend(a: seq<string>, b: seq<string>, x: string)
    ensures Without(a + b, x) == Without(a, x) + Without(b, x)
    decreases |a|
  {
    if a != [] {
      assert (a + b)[0] == a[0];
      assert (a + b)[1..] == a[1..] + b;
      WithoutAppend(a[1..], b, x);
    } else {
      assert a + b == b;
    }
  }

  /** The data source polling the snapshot endpoint. */
  class MassiveDataSource {
    const apiKey: string
    const cache: PriceCache
    /** Seconds between polls (15 by default); the sleep itself is not modelled. */
    const pollInterval: real
    /** The watch list, in the order tickers were started or added. */
    var tickers: seq<string>
    /** Whether the background poll task is live. */
    var running: bool
    /** Whether a REST client is held. */
    var hasClient: bool
    /** Whether `Start` has been called; the interface allows it only once. */
    ghost var started: bool

    ghost predicate Valid()
      reads this, cache
    {
      && cache.Valid()
      && (!started ==> !hasClient && !running)
    }

    constructor (apiKey: string, cache: PriceCache, pollInterval: real := 15.0)
      requires cache.Valid()
      ensures Valid() && !started && !hasClient && !running && tickers == []
      ensures this.apiKey == apiKey && this.cache == cache && this.pollInterval == pollInterval
    {
      this.apiKey := apiKey;
      this.cache := cache;
      this.pollInterval := pollInterval;
      tickers := [];
      running := false;
      hasClient := false;
      started := false;
    }

    /**
     * Takes a client and the watch list (as given, not normalized), polls once right away with
     * the outcome `fetch` of the first call, then starts the poll loop.
     */
    method Start(tickers: seq<string>, fetch: Option<seq<Snapshot>>, clock: real)
      returns (processed: nat)
      requires Valid() && !started
      modifies this, cache
      ensures Valid() && started && hasClient && running && this.tickers == tickers
      ensures tickers == [] || fetch.None? ==>
                cache.prices == old(cache.prices) && cache.version == old(cache.version) && processed == 0
      ensures tickers != [] && fetch.Some? ==>
                && cache.prices == ApplySnapshots(old(cache.prices), fetch.value, clock)
                && processed == UsableCount(fetch.value)
                && cache.version == old(cache.version) + processed
    {
      hasClient := true;
      this.tickers := tickers;
      started := true;
      processed := PollOnce(fetch, clock);
      running := true;
    }

    /** Cancels the poll loop and drops the client, so later polls write nothing. */
    method Stop()
      requires Valid()
      modifies this`running, this`hasClient
      ensures Valid() && !running && !hasClient
    {
      running := false;
      hasClient := false;
    }

    /** Adds the normalized ticker to the end of the watch list unless it is already there. */
    method AddTicker(ticker: string)
      requires Valid()
      modifies this`tickers
      ensures Valid()
      ensures AddTickerContract(old(tickers), tickers, Normalize(ticker))
      ensures Normalize(ticker) in tickers
      ensures Normalize(ticker) !in old(tickers) ==> tickers == old(tickers) + [Normalize(ticker)]
    {
      var t := Normalize(ticker);
      if t !in tickers {
        tickers := tickers + [t];
      }
    }

    /** Drops every occurrence of the normalized ticker from the watch list and from the cache. */
    method RemoveTicker(ticker: string)
      requires Valid()
      modifies this`tickers, cache
      ensures Valid()
      ensures tickers == Without(old(tickers), Normalize(ticker))
      ensures RemoveTickerContract(old(tickers), tickers, Normalize(ticker), cache.prices.Keys)
      ensures cache.prices == old(cache.prices) - {Normalize(ticker)}
      ensures cache.version == old(cache.version)
    {
      var t := Normalize(ticker);
      tickers := Without(tickers, t);
      cache.Remove(t);
    }

    /** A copy of the watch list. */
    method GetTickers() returns (ts: seq<string>)
      ensures ts == tickers
    {
      ts := tickers;
    }

    /**
     * One poll: nothing without a watch list or a client, or when the fetch failed; otherwise
     * each usable record is written in order and counted, and the others are skipped.
     */
    method PollOnce(fetch: Option<seq<Snapshot>>, clock: real) returns (processed: nat)
      requires Valid()
      modifies cache
      ensures Valid()
      ensures tickers == [] || !hasClient || fetch.None? ==>
                cache.prices == old(cache.prices) && cache.version == old(cache.version) && processed == 0
      ensures tickers != [] && hasClient && fetch.Some? ==>
                && cache.prices == ApplySnapshots(old(cache.prices), fetch.value, clock)
                && processed == UsableCount(fetch.value)
                && cache.version == old(cache.version) + processed
    {
      processed := 0;
      if tickers == [] || !hasClient || fetch.None? {
        return;
      }
      var snaps := fetch.value;
      var i := 0;
      while i < |snaps|
        invariant 0 <= i <= |snaps|
        invariant cache.Valid()
        invariant cache.prices == ApplySnapshots(old(cache.prices), snaps[..i], clock)
        invariant processed == UsableCount(snaps[..i])
        invariant cache.version == old(cache.version) + processed
      {
        assert snaps[..i + 1][..i] == snaps[..i];
        var s := snaps[i];
        if Usable(s) {
          var _ := cache.Update(s.ticker, s.lastTrade.value.price.value, Some(TradeSeconds(s)), clock);
          processed := processed + 1;
        }
        i := i + 1;
      }
      assert snaps[..i] == snaps;
    }
  }
}

/**
 * The shared price cache: latest snapshot per ticker plus a version counter that every
 * write bumps. The `threading.Lock` of `PriceCache` in cache.py is dropped: this is a sequential model.
 */
module Cache {
  import opened Wrappers
  import opened Models

  /**
   * The timestamp a write records: `timestamp or time.time()`. A missing timestamp and a
   * supplied 0.0 (falsy in Python) both fall back to the clock reading `clock`.
   */
  function EffectiveTimestamp(timestamp: Option<real>, clock: real): (ts: real)
    ensures timestamp.Some? && timestamp.value != 0.0 ==> ts == timestamp.value
    ensures timestamp.None? || timestamp.value == 0.0 ==> ts == clock
  {
    if timestamp.Some? && timestamp.value != 0.0 then timestamp.value else clock
  }

  /** Every stored snapshot sits under its own ticker and carries whole-cent prices. */
  ghost predicate WellFormed(prices: map<string, PriceUpdate>) {
    forall t :: t in prices ==>
      prices[t].ticker == t && IsCents(prices[t].price) && IsCents(prices[t].previousPrice)
  }

  /**
   * The snapshot that writing `price` for `ticker` creates, given the stored map `prices`:
   * the previous price is the stored one, or the new price itself on first sight.
   */
  function NewSnapshot(prices: map<string, PriceUpdate>, ticker: string, price: real,
                       timestamp: Option<real>, clock: real): (u: PriceUpdate)
    ensures u.ticker == ticker && u.price == Round2(price)
    ensures u.timestamp == EffectiveTimestamp(timestamp, clock)
    ensures IsCents(u.price) && IsCents(u.previousPrice)
  {
    var previous := if ticker in prices then prices[ticker].price else price;
    PriceUpdate(ticker, Round2(price), Round2(previous), EffectiveTimestamp(timestamp, clock))
  }

  /** The map after writing `price` for `ticker`. */
  function Written(prices: map<string, PriceUpdate>, ticker: string, price: real,
                   timestamp: Option<real>, clock: real): (m: map<string, PriceUpdate>)
    ensures m.Keys == prices.Keys + {ticker}
    ensures m[ticker] == NewSnapshot(prices, ticker, price, timestamp, clock)
    ensures forall t :: t in prices && t != ticker ==> m[t] == prices[t]
  {
    prices[ticker := NewSnapshot(prices, ticker, price, timestamp, clock)]
  }

  /** Writing keeps the stored map well formed. */
  lemma WrittenWellFormed(prices: map<string, PriceUpdate>, ticker: string, price: real,
                          timestamp: Option<real>, clock: real)
    requires WellFormed(prices)
    ensures WellFormed(Written(prices, ticker, price, timestamp, clock))
  {
  }

  /** The first write of a ticker has previous price == price, so it is "flat" with no change. */
  lemma FirstUpdateIsFlat(prices: map<string, PriceUpdate>, ticker: string, price: real,
                          timestamp: Option<real>, clock: real)
    requires ticker !in prices
    ensures var u := NewSnapshot(prices, ticker, price, timestamp, clock);
            u.previousPrice == u.price && u.Direction() == "flat" && u.Change() == 0.0
  {
    var u := NewSnapshot(prices, ticker, price, timestamp, clock);
    UnchangedPriceIsFlat(u);
  }

  /**
   * A later write's previous price is exactly the price stored just before, and its
   * direction and change compare the new rounded price with that stored price.
   */
  lemma LaterUpdateComparesWithStored(prices: map<string, PriceUpdate>, ticker: string, price: real,
                                      timestamp: Option<real>, clock: real)
    requires WellFormed(prices) && ticker in prices
    ensures var u := NewSnapshot(prices, ticker, price, timestamp, clock);
            && u.previousPrice == prices[ticker].price
            && u.Change() == Round2(price) - prices[ticker].price
            && (u.Direction() == "up" <==> Round2(price) > prices[ticker].price)
            && (u.Direction() == "down" <==> Round2(price) < prices[ticker].price)
            && (u.Direction() == "flat" <==> Round2(price) == prices[ticker].price)
  {
    var u := NewSnapshot(prices, ticker, price, timestamp, clock);
    assert u.previousPrice == prices[ticker].price;
    ChangeExactOnCents(u);
  }

  /**
   * A write is "flat" exactly when the new rounded price equals the ticker's prior stored
   * price, or the ticker had none.
   */
  lemma FlatIffUnchanged(prices: map<string, PriceUpdate>, ticker: string, price: real,
                         timestamp: Option<real>, clock: real)
    requires WellFormed(prices)
    ensures NewSnapshot(prices, ticker, price, timestamp, clock).Direction() == "flat"
            <==> (ticker !in prices || prices[ticker].price == Round2(price))
  {
    if ticker in prices {
      LaterUpdateComparesWithStored(prices, ticker, price, timestamp, clock);
    } else {
      FirstUpdateIsFlat(prices, ticker, price, timestamp, clock);
    }
  }

  /**
   * The map after writing `values[ts[0]]`, `values[ts[1]]`, ... in turn, each with the
   * clock reading `clock` and no explicit timestamp (how a data source pushes a batch).
   */
  function WriteAll(prices: map<string, PriceUpdate>, ts: seq<string>, values: map<string, real>,
                    clock: real): (m: map<string, PriceUpdate>)
    requires forall k :: 0 <= k < |ts| ==> ts[k] in values
    ensures forall t :: t in m <==> t in prices || t in ts
    ensures forall t :: t in prices && t !in ts ==> m[t] == prices[t]
    decreases |ts|
  {
    if ts == [] then prices
    else
      var last := ts[|ts| - 1];
      Written(WriteAll(prices, ts[..|ts| - 1], values, clock), last, values[last], None, clock)
  }

  /**
   * After a batch, a written ticker holds its rounded value stamped with the clock, and a
   * ticker that was not cached before the batch is "flat" (its previous price is its price).
   */
  lemma {:induction false} WriteAllWritten(prices: map<string, PriceUpdate>, ts: seq<string>,
                                           values: map<string, real>, clock: real, t: string)
    requires forall k :: 0 <= k < |ts| ==> ts[k] in values
    requires t in ts
    ensures var m := WriteAll(prices, ts, values, clock);
            && m[t].ticker == t && m[t].price == Round2(values[t]) && m[t].timestamp == clock
            && (t !in prices ==> m[t].previousPrice == m[t].price)
    decreases |ts|
  {
    var init, last := ts[..|ts| - 1], ts[|ts| - 1];
    if t != last {
      var k :| 0 <= k < |ts| && ts[k] == t;
      assert init[k] == t;
      WriteAllWritten(prices, init, values, clock, t);
    } else if last in init {
      WriteAllWritten(prices, init, values, clock, t);
    }
  }

  /**
   * When no ticker repeats in the batch, each written ticker that was cached before the batch
   * records the price cached before the batch as its previous price.
   */
  lemma {:induction false} WriteAllPrevious(prices: map<string, PriceUpdate>, ts: seq<string>,
                                            values: map<string, real>, clock: real)
    requires forall k :: 0 <= k < |ts| ==> ts[k] in values
    requires forall i, j :: 0 <= i < j < |ts| ==> ts[i] != ts[j]
    requires WellFormed(prices)
    ensures var m := WriteAll(prices, ts, values, clock);
            forall t :: t in ts && t in prices ==> m[t].previousPrice == prices[t].price
    decreases |ts|
  {
    if ts != [] {
      var init, last := ts[..|ts| - 1], ts[|ts| - 1];
      WriteAllPrevious(prices, init, values, clock);
      forall k | 0 <= k < |init|
        ensures init[k] != last
      {
        assert init[k] == ts[k];
      }
      forall t | t in ts && t in prices
        ensures WriteAll(prices, ts, values, clock)[t].previousPrice == prices[t].price
      {
        if t != last {
          var k :| 0 <= k < |ts| && ts[k] == t;
          assert t in init by { assert init[k] == t; }
        }
      }
    }
  }

  /** In-memory cache of the latest snapshot per ticker. */
  class PriceCache {
    var prices: map<string, PriceUpdate>
    /** Bumped by exactly one on every write; never by a removal. */
    var version: nat

    ghost predicate Valid()
      reads this
    {
      WellFormed(prices)
    }

    constructor ()
      ensures Valid() && prices == map[] && version == 0
    {
      prices := map[];
      version := 0;
    }

    /** Records a new price for `ticker` and returns the snapshot it created. */
    method Update(ticker: string, price: real, timestamp: Option<real>, clock: real)
      returns (u: PriceUpdate)
      requires Valid()
      modifies this
      ensures Valid()
      ensures u == NewSnapshot(old(prices), ticker, price, timestamp, clock)
      ensures prices == Written(old(prices), ticker, price, timestamp, clock)
      ensures version == old(version) + 1
    {
      var ts := if timestamp.Some? && timestamp.value != 0.0 then timestamp.value else clock;
      var previousPrice := if ticker in prices then prices[ticker].price else price;
      u := PriceUpdate(ticker, Round2(price), Round2(previousPrice), ts);
      prices := prices[ticker := u];
      version := version + 1;
    }

    /** The latest snapshot for `ticker`, or None if unknown. */
    method Get(ticker: string) returns (r: Option<PriceUpdate>)
      ensures r.Some? <==> ticker in prices
      ensures r.Some? ==> r.value == prices[ticker]
    {
      r := if ticker in prices then Some(prices[ticker]) else None;
    }

    /** A copy of the whole map (a value: later writes do not reach it). */
    method GetAll() returns (all: map<string, PriceUpdate>)
      ensures all.Keys == prices.Keys
      ensures forall t :: t in all ==> all[t] == prices[t]
    {
      all := prices;
    }

    /** Just the latest price for `ticker`, or None. */
    method GetPrice(ticker: string) returns (r: Option<real>)
      ensures r.Some? <==> ticker in prices
      ensures r.Some? ==> r.value == prices[ticker].price
    {
      var update := Get(ticker);
      r := if update.Some? then Some(update.value.price) else None;
    }

    /** Deletes `ticker` if present; the version is left as it is. */
    method Remove(ticker: string)
      requires Valid()
      modifies this
      ensures Valid()
      ensures prices == old(prices) - {ticker}
      ensures version == old(version)
    {
      prices := prices - {ticker};
    }

    /** Number of cached tickers. */
    method Len() returns (n: nat)
      ensures n == |prices.Keys|
    {
      n := |prices|;
    }

    /** Whether `ticker` is cached. */
    method Contains(ticker: string) returns (b: bool)
      ensures b <==> ticker in prices
    {
      b := ticker in prices;
    }
  }

  /** Writes `values[ts[0]]`, `values[ts[1]]`, ... into `cache` in turn, as a data source does. */
  method WriteBatch(cache: PriceCache, ts: seq<string>, values: map<string, real>, clock: real)
    requires cache.Valid()
    requires forall k :: 0 <= k < |ts| ==> ts[k] in values
    modifies cache
    ensures cache.Valid()
    ensures cache.prices == WriteAll(old(cache.prices), ts, values, clock)
    ensures cache.version == old(cache.version) + |ts|
  {
    var i := 0;
    while i < |ts|
      invariant 0 <= i <= |ts|
      invariant cache.Valid() && cache.version == old(cache.version) + i
      invariant cache.prices == WriteAll(old(cache.prices), ts[..i], values, clock)
    {
      assert ts[..i + 1][..i] == ts[..i];
      var _ := cache.Update(ts[i], values[ts[i]], None, clock);
      i := i + 1;
    }
    assert ts[..i] == ts;
  }

  /** Writing then reading gives back the written snapshot; the version moves by one per write. */
  method UpdateThenGet(clock: real) returns (u: PriceUpdate, r: Option<PriceUpdate>, v: nat)
    ensures r == Some(u) && u.price == 190.12 && u.Direction() == "flat"
    ensures v == 2
  {
    var cache := new PriceCache();
    u := cache.Update("AAPL", 190.12345, None, clock);
    r := cache.Get("AAPL");
    var again := cache.Update("AAPL", 191.0, Some(1234567890.0), clock);
    assert again.timestamp == 1234567890.0 && again.Direction() == "up";
    v := cache.version;
  }
}
